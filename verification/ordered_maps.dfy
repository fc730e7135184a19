/**
 Python dictionaries remember insertion order, and the usage and cost
 ledgers expose that order (rows are produced by iterating `.items()`).
 An `OMap` pairs a map with the sequence of its keys in insertion order;
 sums over a dictionary's values are sums along that sequence.
 */
module OrderedMaps {

  datatype OMap<K, V> = OMap(keys: seq<K>, entries: map<K, V>)

  /** The key sequence lists every key of the map exactly once. */
  ghost predicate Valid<K, V>(m: OMap<K, V>) {
    && (forall i, j :: 0 <= i < j < |m.keys| ==> m.keys[i] != m.keys[j])
    && (forall i :: 0 <= i < |m.keys| ==> m.keys[i] in m.entries)
    && (forall k :: k in m.entries ==> k in m.keys)
  }

  /** `{}` */
  function Empty<K, V>(): (r: OMap<K, V>)
    ensures Valid(r)
    ensures r.entries == map[]
  {
    OMap([], map[])
  }

  /** `d[k] = v`: an existing key keeps its position, a new key goes last. */
  function Put<K, V>(m: OMap<K, V>, k: K, v: V): (r: OMap<K, V>)
    ensures Valid(m) ==> Valid(r)
    ensures r.entries == m.entries[k := v]
    ensures k in m.entries ==> r.keys == m.keys
    ensures k !in m.entries ==> r.keys == m.keys + [k]
  {
    if k in m.entries then OMap(m.keys, m.entries[k := v])
    else OMap(m.keys + [k], m.entries[k := v])
  }

  /** `d.get(k, default)` */
  function GetOr<K, V>(m: OMap<K, V>, k: K, default: V): (r: V)
    ensures k in m.entries ==> r == m.entries[k]
    ensures k !in m.entries ==> r == default
  {
    if k in m.entries then m.entries[k] else default
  }

  /** The sum of `f` over the values stored under `keys`, in order (a key
      without a value, which a `Valid` map never has, adds nothing). */
  function SumAlong<K, V>(keys: seq<K>, entries: map<K, V>, f: V -> int): int
    decreases |keys|
  {
    if |keys| == 0 then 0
    else
      var k := keys[|keys| - 1];
      SumAlong(keys[..|keys| - 1], entries, f) + (if k in entries then f(entries[k]) else 0)
  }

  /** `sum(f(v) for v in d.values())` */
  function Sum<K, V>(m: OMap<K, V>, f: V -> int): int
  {
    SumAlong(m.keys, m.entries, f)
  }

  /** The sum only reads the values stored under the listed keys. */
  lemma {:induction false} SumAlongFrame<K, V>(keys: seq<K>, e1: map<K, V>, e2: map<K, V>, f: V -> int)
    requires forall i :: 0 <= i < |keys| ==> keys[i] in e1 && keys[i] in e2
    requires forall i :: 0 <= i < |keys| ==> f(e1[keys[i]]) == f(e2[keys[i]])
    ensures SumAlong(keys, e1, f) == SumAlong(keys, e2, f)
    decreases |keys|
  {
    if |keys| > 0 {
      SumAlongFrame(keys[..|keys| - 1], e1, e2, f);
    }
  }

  /** Summing two functions that agree on every stored value gives the same total. */
  lemma {:induction false} SumAlongAgree<K, V>(keys: seq<K>, entries: map<K, V>, f: V -> int, g: V -> int)
    ensures (forall k :: k in entries ==> f(entries[k]) == g(entries[k])) ==>
      SumAlong(keys, entries, f) == SumAlong(keys, entries, g)
    decreases |keys|
  {
    if |keys| > 0 {
      SumAlongAgree(keys[..|keys| - 1], entries, f, g);
    }
  }

  /** Replacing the value under a key listed exactly once changes the sum by
      the difference of the two values. */
  lemma {:induction false} SumAlongUpdate<K, V>(keys: seq<K>, e: map<K, V>, k: K, v: V, f: V -> int)
    requires forall i, j :: 0 <= i < j < |keys| ==> keys[i] != keys[j]
    requires forall i :: 0 <= i < |keys| ==> keys[i] in e
    requires k in keys
    ensures SumAlong(keys, e[k := v], f) == SumAlong(keys, e, f) - f(e[k]) + f(v)
    decreases |keys|
  {
    var init := keys[..|keys| - 1];
    var last := keys[|keys| - 1];
    if last == k {
      assert forall i :: 0 <= i < |init| ==> init[i] != k;
      SumAlongFrame(init, e[k := v], e, f);
    } else {
      assert k in init by {
        var i :| 0 <= i < |keys| && keys[i] == k;
        assert i < |keys| - 1;
        assert init[i] == k;
      }
      SumAlongUpdate(init, e, k, v, f);
    }
  }

  /** Appending a key adds its value to the sum. */
  lemma SumAlongSnoc<K, V>(keys: seq<K>, k: K, e: map<K, V>, f: V -> int)
    ensures SumAlong(keys + [k], e, f) == SumAlong(keys, e, f) + (if k in e then f(e[k]) else 0)
  {
    assert (keys + [k])[..|keys|] == keys;
  }

  /** Adding a new key adds its value to the sum. */
  lemma SumPutNew<K, V>(m: OMap<K, V>, k: K, v: V, f: V -> int)
    requires Valid(m) && k !in m.entries
    ensures Sum(Put(m, k, v), f) == Sum(m, f) + f(v)
  {
    var e := m.entries[k := v];
    assert forall i :: 0 <= i < |m.keys| ==> m.keys[i] != k;
    SumAlongFrame(m.keys, e, m.entries, f);
    SumAlongSnoc(m.keys, k, e, f);
  }

  /** How `d[k] = v` changes `sum(f(x) for x in d.values())`. */
  lemma SumPut<K, V>(m: OMap<K, V>, k: K, v: V, f: V -> int)
    requires Valid(m)
    ensures Sum(Put(m, k, v), f)
         == Sum(m, f) - (if k in m.entries then f(m.entries[k]) else 0) + f(v)
  {
    if k in m.entries {
      SumAlongUpdate(m.keys, m.entries, k, v, f);
    } else {
      SumPutNew(m, k, v, f);
    }
  }
}

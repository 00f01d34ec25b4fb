/** A JavaScript `Map<string, V>`, or a plain object's own string-keyed properties, as an
    association sequence: entries are kept in insertion order, which is the order in which
    `Map.prototype.entries()` and `Object.values()` return them. */
module OrderedMaps {
  import opened Seqs

  type OrderedMap<V> = seq<(string, V)>

  function Keys<V>(m: OrderedMap<V>): (ks: seq<string>)
    ensures |ks| == |m|
    ensures forall i :: 0 <= i < |m| ==> ks[i] == m[i].0
  {
    if m == [] then [] else [m[0].0] + Keys(m[1..])
  }

  predicate DistinctKeys<V>(m: OrderedMap<V>)
  {
    NoDups(Keys(m))
  }

  /** `m.get(k)`: the value stored under `k`, or `None` (JavaScript `undefined`). */
  function Get<V>(m: OrderedMap<V>, k: string): Option<V>
  {
    if m == [] then None
    else if m[0].0 == k then Some(m[0].1)
    else Get(m[1..], k)
  }

  /** `m.has(k)` and `m.get(k) !== undefined` agree: a key is found exactly when it is present,
      and what is found is stored under it. */
  lemma {:induction false} GetFindsKey<V>(m: OrderedMap<V>, k: string)
    ensures Get(m, k).Some? <==> k in Keys(m)
    ensures Get(m, k).Some? ==> (k, Get(m, k).value) in m
  {
    if m != [] && m[0].0 != k {
      GetFindsKey(m[1..], k);
      assert Keys(m) == [m[0].0] + Keys(m[1..]);
    }
  }

  /** `m.set(k, v)`: an existing key keeps its position and gets the new value; a new key is
      appended at the end. */
  function Put<V>(m: OrderedMap<V>, k: string, v: V): OrderedMap<V>
  {
    if m == [] then [(k, v)]
    else if m[0].0 == k then [(k, v)] + m[1..]
    else [m[0]] + Put(m[1..], k, v)
  }

  /** `set` on an existing key leaves the key order alone; a new key goes last. */
  lemma {:induction false} PutKeys<V>(m: OrderedMap<V>, k: string, v: V)
    ensures Keys(Put(m, k, v)) == if k in Keys(m) then Keys(m) else Keys(m) + [k]
  {
    if m != [] {
      assert Keys(m) == [m[0].0] + Keys(m[1..]);
      if m[0].0 == k {
        assert ([(k, v)] + m[1..])[1..] == m[1..];
      } else {
        var rest := Put(m[1..], k, v);
        PutKeys(m[1..], k, v);
        assert ([m[0]] + rest)[1..] == rest;
      }
    }
  }

  /** After `m.set(k, v)`, `get(k)` gives `v` and every other key reads as before. */
  lemma {:induction false} GetPut<V>(m: OrderedMap<V>, k: string, v: V, k': string)
    ensures Get(Put(m, k, v), k') == if k' == k then Some(v) else Get(m, k')
  {
    if m != [] && m[0].0 != k {
      GetPut(m[1..], k, v, k');
    }
  }

  /** Sum of the values of a counting map. */
  function SumValues(m: OrderedMap<nat>): nat
  {
    if m == [] then 0 else m[0].1 + SumValues(m[1..])
  }

  /** Overwriting the value under `k` changes the sum by the difference. */
  lemma {:induction false} SumValuesPut(m: OrderedMap<nat>, k: string, v: nat)
    ensures SumValues(Put(m, k, v)) + GetOr(Get(m, k), 0) == SumValues(m) + v
  {
    if m != [] && m[0].0 != k {
      SumValuesPut(m[1..], k, v);
    }
  }

  /** With distinct keys, `get` finds the one entry stored under each key. */
  lemma {:induction false} GetDistinct<V>(m: OrderedMap<V>, i: int)
    requires DistinctKeys(m) && 0 <= i < |m|
    ensures Get(m, m[i].0) == Some(m[i].1)
  {
    if i > 0 {
      assert Keys(m)[0] != Keys(m)[i];
      assert DistinctKeys(m[1..]) by {
        forall a, b | 0 <= a < b < |m[1..]| ensures Keys(m[1..])[a] != Keys(m[1..])[b] {
          assert Keys(m[1..])[a] == Keys(m)[a + 1] && Keys(m[1..])[b] == Keys(m)[b + 1];
        }
      }
      GetDistinct(m[1..], i - 1);
    }
  }

  /** Setting the same key twice keeps only the second value. */
  lemma {:induction false} PutPut<V>(m: OrderedMap<V>, k: string, v: V, w: V)
    ensures Put(Put(m, k, v), k, w) == Put(m, k, w)
  {
    if m != [] && m[0].0 != k {
      PutPut(m[1..], k, v, w);
    }
  }

  /** A map whose keys are the distinct elements of `ks`, in first-occurrence order, keeps that
      property when the next key is set. */
  lemma {:induction false} PutKeepsFirstOccurrenceOrder<V>(m: OrderedMap<V>, ks: seq<string>, k: string, v: V)
    requires Keys(m) == Dedup(ks)
    ensures Keys(Put(m, k, v)) == Dedup(ks + [k])
  {
    PutKeys(m, k, v);
    DedupSnoc(ks, k);
  }
}

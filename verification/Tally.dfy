/** Count tables: maps from a key to how often it was counted, and their totals. */
module Tally {

  function Value<K(==)>(t: map<K, nat>, k: K): (r: nat) {
    if k in t then t[k] else 0
  }

  /** INSERT ... VALUES (k, 1) ON CONFLICT DO UPDATE SET count = count + 1 */
  function Bump<K(==)>(t: map<K, nat>, k: K): (r: map<K, nat>) {
    t[k := Value(t, k) + 1]
  }

  function BumpAll<K(==)>(t: map<K, nat>, keys: seq<K>): (r: map<K, nat>) {
    if keys == [] then t else Bump(BumpAll(t, keys[..|keys| - 1]), keys[|keys| - 1])
  }

  method Upsert<K(==)>(t: map<K, nat>, keys: seq<K>) returns (r: map<K, nat>)
    ensures r == BumpAll(t, keys)
  {
    r := t;
    var i := 0;
    while i < |keys|
      invariant 0 <= i <= |keys|
      invariant r == BumpAll(t, keys[..i])
    {
      assert keys[..i + 1][..i] == keys[..i];
      r := r[keys[i] := (if keys[i] in r then r[keys[i]] else 0) + 1];
      i := i + 1;
    }
    assert keys[..i] == keys;
  }

  lemma {:induction false} BumpAllCounts<K>(t: map<K, nat>, keys: seq<K>, k: K)
    ensures Value(BumpAll(t, keys), k) == Value(t, k) + multiset(keys)[k]
    decreases |keys|
  {
    if keys != [] {
      BumpAllCounts(t, keys[..|keys| - 1], k);
      assert keys == keys[..|keys| - 1] + [keys[|keys| - 1]];
    }
  }

  ghost function Total<K(!new)>(t: map<K, nat>): (r: nat)
    decreases |t|
  {
    if t.Keys == {} then 0
    else
      var k :| k in t.Keys;
      assert |t - {k}| < |t| by { assert (t - {k}).Keys == t.Keys - {k}; }
      t[k] + Total(t - {k})
  }

  /** The total does not depend on the order in which entries are summed. */
  lemma {:induction false} TotalRemove<K(!new)>(t: map<K, nat>, k: K)
    requires k in t
    ensures Total(t) == t[k] + Total(t - {k})
    decreases |t|
  {
    var p :| p in t.Keys && Total(t) == t[p] + Total(t - {p});
    if p != k {
      assert (t - {p}).Keys == t.Keys - {p} && (t - {k}).Keys == t.Keys - {k};
      TotalRemove(t - {p}, k);
      TotalRemove(t - {k}, p);
      assert t - {p} - {k} == t - {k} - {p};
    }
  }

  lemma TotalUpdate<K(!new)>(t: map<K, nat>, k: K, v: nat)
    ensures Total(t[k := v]) + Value(t, k) == Total(t) + v
  {
    TotalRemove(t[k := v], k);
    assert t[k := v] - {k} == t - {k};
    if k in t {
      TotalRemove(t, k);
    } else {
      assert t - {k} == t;
    }
  }

  lemma {:induction false} BumpAllTotal<K(!new)>(t: map<K, nat>, keys: seq<K>)
    ensures Total(BumpAll(t, keys)) == Total(t) + |keys|
    decreases |keys|
  {
    if keys != [] {
      var before := BumpAll(t, keys[..|keys| - 1]);
      BumpAllTotal(t, keys[..|keys| - 1]);
      TotalUpdate(before, keys[|keys| - 1], Value(before, keys[|keys| - 1]) + 1);
    }
  }
}

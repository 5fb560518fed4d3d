/**
 * A Python `dict` keyed by strings, as an association list in iteration
 * (insertion) order.  Assigning to a key that is present replaces its value
 * where it stands; a new key goes last.  A real dict never holds a key
 * twice: `UniqueKeys`, which `Put` preserves.
 */
module PyDict {
  import opened Wrappers

  type Dict<V> = seq<(string, V)>

  predicate UniqueKeys<V>(d: Dict<V>) {
    forall i, j | 0 <= i < j < |d| :: d[i].0 != d[j].0
  }

  /** `list(d.keys())`. */
  function Keys<V>(d: Dict<V>): seq<string> {
    if d == [] then [] else [d[0].0] + Keys(d[1..])
  }

  /** `d.get(k)`. */
  function Get<V>(d: Dict<V>, k: string): Option<V> {
    if d == [] then None
    else if d[0].0 == k then Some(d[0].1)
    else Get(d[1..], k)
  }

  /** `d[k] = v`. */
  function Put<V>(d: Dict<V>, k: string, v: V): Dict<V> {
    if d == [] then [(k, v)]
    else if d[0].0 == k then [(k, v)] + d[1..]
    else [d[0]] + Put(d[1..], k, v)
  }

  lemma {:induction false} KeysAt<V>(d: Dict<V>)
    ensures |Keys(d)| == |d|
    ensures forall i | 0 <= i < |d| :: Keys(d)[i] == d[i].0
  {
    if d != [] {
      KeysAt(d[1..]);
    }
  }

  /** A key is found exactly when it is among the keys. */
  lemma {:induction false} GetFinds<V>(d: Dict<V>, k: string)
    ensures Get(d, k).Some? <==> k in Keys(d)
  {
    if d != [] {
      GetFinds(d[1..], k);
    }
  }

  /** In a dict, the entry at position `i` is the one `Get` finds for its key. */
  lemma {:induction false} GetAt<V>(d: Dict<V>, i: nat)
    requires UniqueKeys(d) && i < |d|
    ensures Get(d, d[i].0) == Some(d[i].1)
  {
    if i > 0 {
      assert d[0].0 != d[i].0;
      assert UniqueKeys(d[1..]) by {
        forall a, b | 0 <= a < b < |d| - 1 ensures d[1..][a].0 != d[1..][b].0 {
          assert d[a + 1].0 != d[b + 1].0;
        }
      }
      GetAt(d[1..], i - 1);
    }
  }

  /** A dict whose first key does not come back later, and whose rest is a dict, is a dict. */
  lemma UniqueCons<V>(d: Dict<V>)
    requires d != []
    ensures UniqueKeys(d) <==> d[0].0 !in Keys(d[1..]) && UniqueKeys(d[1..])
  {
    KeysAt(d[1..]);
    if UniqueKeys(d) {
      forall a, b | 0 <= a < b < |d| - 1 ensures d[1..][a].0 != d[1..][b].0 {
        assert d[a + 1].0 != d[b + 1].0;
      }
    }
    if d[0].0 !in Keys(d[1..]) && UniqueKeys(d[1..]) {
      forall a, b | 0 <= a < b < |d| ensures d[a].0 != d[b].0 {
        if a == 0 {
          assert Keys(d[1..])[b - 1] == d[b].0;
        } else {
          assert d[1..][a - 1].0 != d[1..][b - 1].0;
        }
      }
    }
  }

  /** After `d[k] = v`, `k` holds `v` and every other key holds what it held. */
  lemma {:induction false} PutGet<V>(d: Dict<V>, k: string, v: V)
    ensures Get(Put(d, k, v), k) == Some(v)
    ensures forall k' | k' != k :: Get(Put(d, k, v), k') == Get(d, k')
  {
    if d != [] && d[0].0 != k {
      PutGet(d[1..], k, v);
      assert Put(d, k, v)[1..] == Put(d[1..], k, v);
    }
  }

  /** `d[k] = v` keeps the iteration order and appends a new key at the end. */
  lemma {:induction false} PutKeys<V>(d: Dict<V>, k: string, v: V)
    ensures Keys(Put(d, k, v)) == if k in Keys(d) then Keys(d) else Keys(d) + [k]
  {
    if d != [] {
      assert Put(d, k, v)[1..] == if d[0].0 == k then d[1..] else Put(d[1..], k, v);
      if d[0].0 != k {
        PutKeys(d[1..], k, v);
      }
    }
  }

  /** `d[k] = v` never makes a key appear twice. */
  lemma {:induction false} PutUnique<V>(d: Dict<V>, k: string, v: V)
    requires UniqueKeys(d)
    ensures UniqueKeys(Put(d, k, v))
    ensures |Put(d, k, v)| <= |d| + 1
  {
    var r := Put(d, k, v);
    if d == [] {
    } else if d[0].0 == k {
      UniqueCons(d);
      assert r[1..] == d[1..];
      UniqueCons(r);
    } else {
      UniqueCons(d);
      PutUnique(d[1..], k, v);
      PutKeys(d[1..], k, v);
      assert r[1..] == Put(d[1..], k, v);
      UniqueCons(r);
    }
  }

  /** No assignment after step `m` uses the key of step `m`. */
  predicate AssignedLastAt(keys: seq<string>, m: nat)
    requires m < |keys|
  {
    forall m' | m < m' < |keys| :: keys[m'] != keys[m]
  }

  /** The dict built by `d[keys[m]] = values[m]` for m = 0, 1, ... in order, starting empty. */
  function FromPairs<V>(keys: seq<string>, values: seq<V>): Dict<V>
    requires |keys| == |values|
  {
    if keys == [] then []
    else Put(FromPairs(keys[..|keys| - 1], values[..|values| - 1]), keys[|keys| - 1], values[|values| - 1])
  }

  /** The keys of `FromPairs` are exactly the assigned keys, each once. */
  lemma {:induction false} FromPairsKeys<V>(keys: seq<string>, values: seq<V>)
    requires |keys| == |values|
    ensures UniqueKeys(FromPairs(keys, values))
    ensures |FromPairs(keys, values)| <= |keys|
    ensures forall k :: k in Keys(FromPairs(keys, values)) <==> k in keys
  {
    if keys != [] {
      var n := |keys|;
      var ks, vs := keys[..n - 1], values[..n - 1];
      FromPairsKeys(ks, vs);
      var d := FromPairs(ks, vs);
      PutUnique(d, keys[n - 1], values[n - 1]);
      PutKeys(d, keys[n - 1], values[n - 1]);
      assert forall k :: k in keys <==> k in ks || k == keys[n - 1];
    }
  }

  /** A key assigned for the last time at step `m` holds `values[m]`. */
  lemma {:induction false} FromPairsValues<V>(keys: seq<string>, values: seq<V>, m: nat)
    requires |keys| == |values| && m < |keys| && AssignedLastAt(keys, m)
    ensures Get(FromPairs(keys, values), keys[m]) == Some(values[m])
  {
    var n := |keys|;
    var ks, vs := keys[..n - 1], values[..n - 1];
    PutGet(FromPairs(ks, vs), keys[n - 1], values[n - 1]);
    if m < n - 1 {
      assert keys[n - 1] != keys[m];
      assert ks[m] == keys[m] && vs[m] == values[m];
      assert AssignedLastAt(ks, m);
      FromPairsValues(ks, vs, m);
    }
  }
}

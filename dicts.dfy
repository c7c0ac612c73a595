/** The dict that a Python loop builds by assigning `d[key] = value` for some of the items it visits.
    Used for meta tags and for product specifications, where a later duplicate key overwrites an
    earlier one. */
module Dicts {
  import opened Wrappers

  /** The dict built from an empty one by visiting `entries` in order: `Some((k, v))` assigns
      `d[k] = v`, `None` is an item the loop skips. */
  function Build<K(==), V>(entries: seq<Option<(K, V)>>): map<K, V>
  {
    if entries == [] then map[]
    else
      var d := Build(entries[..|entries| - 1]);
      match entries[|entries| - 1]
      case None => d
      case Some(kv) => d[kv.0 := kv.1]
  }

  predicate HasKey<K(==), V>(entry: Option<(K, V)>, k: K) {
    entry.Some? && entry.value.0 == k
  }

  /** Entry `i` is the last one that assigns key `k`. */
  predicate LastWith<K(==), V>(entries: seq<Option<(K, V)>>, k: K, i: nat) {
    && i < |entries| && HasKey(entries[i], k)
    && forall j :: i < j < |entries| ==> !HasKey(entries[j], k)
  }

  /** One more visited item extends the dict the way the loop body does. */
  lemma BuildSnoc<K, V>(entries: seq<Option<(K, V)>>, x: Option<(K, V)>)
    ensures Build(entries + [x]) == match x case None => Build(entries) case Some(kv) => Build(entries)[kv.0 := kv.1]
  {
    assert (entries + [x])[..|entries|] == entries;
  }

  /** A key is in the dict exactly when some entry assigns it. */
  lemma {:induction false} BuildKeys<K, V>(entries: seq<Option<(K, V)>>, k: K)
    ensures k in Build(entries) <==> exists i :: 0 <= i < |entries| && HasKey(entries[i], k)
  {
    if entries != [] {
      var n := |entries| - 1;
      var prefix := entries[..n];
      BuildKeys(prefix, k);
      if k in Build(entries) && !HasKey(entries[n], k) {
        assert k in Build(prefix);
        var i :| 0 <= i < |prefix| && HasKey(prefix[i], k);
        assert HasKey(entries[i], k);
      }
      if exists i :: 0 <= i < |entries| && HasKey(entries[i], k) {
        var i :| 0 <= i < |entries| && HasKey(entries[i], k);
        if i < n {
          assert HasKey(prefix[i], k);
        }
      }
    }
  }

  /** The value stored under a key is the one its last entry assigns. */
  lemma {:induction false} BuildLastWins<K, V>(entries: seq<Option<(K, V)>>, k: K, i: nat)
    requires LastWith(entries, k, i)
    ensures k in Build(entries) && Build(entries)[k] == entries[i].value.1
  {
    var n := |entries| - 1;
    var prefix := entries[..n];
    if i < n {
      assert LastWith(prefix, k, i);
      BuildLastWins(prefix, k, i);
      assert !HasKey(entries[n], k);
    }
  }
}

/** Utility/DictionaryExtension.cs: a lookup that answers default(TValue)
    instead of throwing for a missing key. */
module DictionaryExtension {
  import opened Common
  import opened Dictionaries

  /** GetValueOrDefault(dictionary, key). TryGetValue's boolean answer is
      ignored, so a missing key is no error: the out value keeps
      default(TValue), which for the string values the core stores is null
      (None here). The dictionary is only read. On a list of pairs whose keys
      may repeat, this is the value of the first pair with the key. */
  function GetValueOrDefault<K(==), V>(entries: seq<(K, V)>, key: K): Option<V>
  {
    if entries == [] then None
    else if entries[0].0 == key then Some(entries[0].1)
    else GetValueOrDefault(entries[1..], key)
  }

  /** A lookup that hits finds the first pair with the key. */
  lemma {:induction false} GetValueOrDefaultFirst<K, V>(entries: seq<(K, V)>, key: K)
    ensures GetValueOrDefault(entries, key).Some? ==>
              exists k :: 0 <= k < |entries| && entries[k] == (key, GetValueOrDefault(entries, key).value)
                          && forall j :: 0 <= j < k ==> entries[j].0 != key
  {
    if entries != [] && entries[0].0 != key {
      var r := GetValueOrDefault(entries[1..], key);
      GetValueOrDefaultFirst(entries[1..], key);
      if r.Some? {
        var k :| 0 <= k < |entries[1..]| && entries[1..][k] == (key, r.value)
                 && forall j :: 0 <= j < k ==> entries[1..][j].0 != key;
        assert entries[k + 1] == (key, r.value);
      }
    }
  }

  /** A lookup misses exactly when the key is absent; when the keys are
      distinct, it finds the value of the one pair with the key. */
  lemma {:induction false} GetValueOrDefaultSpec<K, V>(entries: seq<(K, V)>, key: K)
    ensures GetValueOrDefault(entries, key).None? <==> key !in Keys(entries)
    ensures DistinctKeys(entries) ==>
              forall i :: 0 <= i < |entries| && entries[i].0 == key ==> GetValueOrDefault(entries, key) == Some(entries[i].1)
  {
    if entries != [] {
      GetValueOrDefaultSpec(entries[1..], key);
      assert forall i :: 1 <= i < |entries| ==> entries[1..][i - 1] == entries[i];
      assert Keys(entries) == Keys(entries[1..]) + {entries[0].0} by {
        forall k | k in Keys(entries) ensures k in Keys(entries[1..]) + {entries[0].0} {
          var i :| 0 <= i < |entries| && entries[i].0 == k;
          if i > 0 { assert entries[1..][i - 1] == entries[i]; }
        }
      }
    }
  }
}

/** System.Collections.Generic.Dictionary as the core uses it: an
    insertion-ordered list of key/value pairs whose keys are distinct. With no
    removals, .NET enumerates a Dictionary in insertion order, which is the
    order this list keeps. */
module Dictionaries {
  import opened Common

  /** The keys present in a list of pairs. */
  function Keys<K, V>(entries: seq<(K, V)>): set<K>
  {
    set i | 0 <= i < |entries| :: entries[i].0
  }

  /** No key occurs twice. */
  predicate DistinctKeys<K(==), V>(entries: seq<(K, V)>)
  {
    forall i, j :: 0 <= i < j < |entries| ==> entries[i].0 != entries[j].0
  }

  /** Dictionary.TryAdd on the pair list: append unless the key is present. */
  function TryAdded<K(==), V>(entries: seq<(K, V)>, key: K, value: V): seq<(K, V)>
  {
    if key in Keys(entries) then entries else entries + [(key, value)]
  }

  lemma TryAddedKeepsDistinct<K, V>(entries: seq<(K, V)>, key: K, value: V)
    requires DistinctKeys(entries)
    ensures DistinctKeys(TryAdded(entries, key, value))
    ensures Keys(TryAdded(entries, key, value)) == Keys(entries) + {key}
  {
    var r := TryAdded(entries, key, value);
    if key !in Keys(entries) {
      forall i | 0 <= i < |entries| ensures entries[i].0 != key {
        assert entries[i].0 in Keys(entries);
      }
      assert r[|entries|] == (key, value);
      assert Keys(r) == Keys(entries) + {key} by {
        forall k | k in Keys(r) ensures k in Keys(entries) + {key} {
          var i :| 0 <= i < |r| && r[i].0 == k;
          if i < |entries| { assert entries[i] == r[i]; }
        }
        forall k | k in Keys(entries) ensures k in Keys(r) {
          var i :| 0 <= i < |entries| && entries[i].0 == k;
          assert r[i] == entries[i];
        }
      }
    }
  }

  class Dictionary<K(==), V> {
    var entries: seq<(K, V)>

    ghost predicate Valid()
      reads this
    {
      DistinctKeys(entries)
    }

    /** new Dictionary<K, V>() */
    constructor ()
      ensures Valid() && entries == []
    {
      entries := [];
    }

    function Count(): nat
      reads this
    {
      |entries|
    }

    predicate ContainsKey(key: K)
      reads this
    {
      key in Keys(entries)
    }

    /** Dictionary.TryAdd: adds the pair unless the key is present; never
        overwrites. */
    method TryAdd(key: K, value: V) returns (added: bool)
      requires Valid()
      modifies this
      ensures Valid()
      ensures added <==> key !in Keys(old(entries))
      ensures entries == TryAdded(old(entries), key, value)
    {
      added := key !in Keys(entries);
      TryAddedKeepsDistinct(entries, key, value);
      entries := TryAdded(entries, key, value);
    }

    /** Dictionary.Add: adds the pair, or throws ArgumentException (here
        DuplicateKey) leaving the dictionary as it was when the key is present. */
    method Add(key: K, value: V) returns (r: Outcome)
      requires Valid()
      modifies this
      ensures Valid()
      ensures r.Pass? <==> key !in Keys(old(entries))
      ensures r.Pass? ==> entries == old(entries) + [(key, value)]
      ensures r.Fail? ==> entries == old(entries)
    {
      if key in Keys(entries) {
        r := Fail(DuplicateKey);
      } else {
        TryAddedKeepsDistinct(entries, key, value);
        entries := entries + [(key, value)];
        r := Pass;
      }
    }
  }
}

/** The two-level map `ucache.HashSet`: key -> value key -> value. */
module UCache {
  import opened GoResult
  import opened Sequences

  /** The values under `key`; a key that was never set and a key with no values read the same. */
  function Entries<K(==), VK, V>(cache: map<K, map<VK, V>>, key: K): map<VK, V> {
    if key in cache then cache[key] else map[]
  }

  class HashSet<K(==, !new), VK(==, !new), V(!new)> {
    var cache: map<K, map<VK, V>>

    constructor ()
      ensures cache == map[]
    {
      cache := map[];
    }

    method Get(key: K, valueKey: VK) returns (r: Option<V>)
      ensures r == if valueKey in Entries(cache, key) then Some(Entries(cache, key)[valueKey]) else None
    {
      if key in cache {
        var values := cache[key];
        if valueKey in values {
          return Some(values[valueKey]);
        }
      }
      r := None;
    }

    /** Sets one entry and leaves every other entry, of this key and of the others, as it was. */
    method Set(key: K, valueKey: VK, value: V)
      modifies this
      ensures Entries(cache, key) == Entries(old(cache), key)[valueKey := value]
      ensures forall k :: k != key ==> Entries(cache, k) == Entries(old(cache), k)
    {
      if key !in cache {
        cache := cache[key := map[]];
      }
      cache := cache[key := cache[key][valueKey := value]];
    }

    /** The values under `key`, one per value key, in the arbitrary order of a map range. */
    method GetAll(key: K) returns (response: seq<V>)
      ensures Enumerates(response, Entries(cache, key))
    {
      response := [];
      ghost var order: seq<VK> := [];
      if key in cache {
        var values := cache[key];
        var todo := values.Keys;
        while todo != {}
          invariant todo <= values.Keys
          invariant Distinct(order)
          invariant forall k :: k in order <==> k in values && k !in todo
          invariant |order| == |response|
          invariant forall i :: 0 <= i < |response| ==> response[i] == values[order[i]]
        {
          var k :| k in todo;
          response, order, todo := response + [values[k]], order + [k], todo - {k};
        }
      }
      assert EnumeratesAs(response, Entries(cache, key), order);
    }
  }
}

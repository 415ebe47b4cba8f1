/**
 * The result cache shared by every validator instance (`EmailValiditon.cache`)
 * and its static accessors `getCache`, `setCache`, `hasCache` and `clearCache`.
 * It is a plain object keyed by strings; a missing key reads as `undefined`.
 */
module ResultCache {
  import opened States

  /** `cache[key]`: the stored value, or `undefined` for a key never stored. */
  function Lookup(entries: map<string, JsValue>, key: string): (v: JsValue)
    ensures key in entries ==> v == entries[key]
    ensures key !in entries ==> v == JsUndefined
  {
    if key in entries then entries[key] else JsUndefined
  }

  class Cache {
    var entries: map<string, JsValue>

    /** The cache as the page starts it, `{}`. */
    constructor ()
      ensures entries == map[]
    {
      entries := map[];
    }

    /** `getCache(key)`: the stored entry, or `undefined` for a key not stored (the reading `Lookup` gives the snapshot). */
    function Get(key: string): (v: JsValue)
      reads this
      ensures key in entries ==> v == entries[key]
      ensures key !in entries ==> v == JsUndefined
    {
      Lookup(entries, key)
    }

    /** `hasCache(key)`: whether the key was ever stored since the last clear. */
    predicate Has(key: string)
      reads this
      ensures !Has(key) ==> Get(key) == JsUndefined
    {
      key in entries
    }

    /** `setCache(key, value)`: stores or overwrites one entry and no other. */
    method Set(key: string, value: JsValue)
      modifies this
      ensures entries == old(entries)[key := value]
      ensures Has(key) && Get(key) == value
      ensures forall k :: k != key ==> Get(k) == old(Get(k))
    {
      entries := entries[key := value];
    }

    /** `clearCache()`: forgets every entry. */
    method Clear()
      modifies this
      ensures entries == map[]
      ensures forall k :: !Has(k) && Get(k) == JsUndefined
    {
      entries := map[];
    }
  }
}

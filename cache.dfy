/**
 * The TTL cache of CrawData/src/utils/cache.ts. The clock is an explicit
 * `now` parameter (milliseconds) and the hourly clean-up timer is left to
 * the caller, who may call CleanExpiredCache at any instant.
 */
module Cache {
  import opened JsValues

  datatype CacheItem = CacheItem(value: JsValue, expiry: int)

  /** An entry is stale strictly after its expiry instant. */
  predicate Expired(item: CacheItem, now: int)
  {
    now > item.expiry
  }

  class CacheManager {
    var cache: map<string, CacheItem>

    constructor()
      ensures cache == map[]
    {
      cache := map[];
    }

    /**
     * `get`: `null` for an absent key; for an expired entry `null`, and that
     * entry alone is deleted; otherwise the stored value, with the map
     * untouched (an entry read at its very expiry instant is still a hit).
     */
    method Get(key: string, now: int) returns (r: JsValue)
      modifies this
      ensures key !in old(cache) ==> r == Null && cache == old(cache)
      ensures key in old(cache) && Expired(old(cache)[key], now) ==>
                r == Null && cache == old(cache) - {key}
      ensures key in old(cache) && !Expired(old(cache)[key], now) ==>
                r == old(cache)[key].value && cache == old(cache)
    {
      if key !in cache {
        return Null;
      }
      var item := cache[key];
      if now > item.expiry {
        cache := cache - {key};
        return Null;
      }
      r := item.value;
    }

    /** `set`: stores `value` under `key` until `now + ttlSeconds * 1000`, replacing any earlier entry; no other key changes. */
    method Set(key: string, value: JsValue, ttlSeconds: int, now: int)
      modifies this
      ensures key in cache && cache[key] == CacheItem(value, now + ttlSeconds * 1000)
      ensures cache.Keys == old(cache).Keys + {key}
      ensures forall k :: k in old(cache) && k != key ==> cache[k] == old(cache)[k]
    {
      cache := cache[key := CacheItem(value, now + ttlSeconds * 1000)];
    }

    /** `cleanExpiredCache`: deletes exactly the expired entries; the others keep their value and expiry. */
    method CleanExpiredCache(now: int)
      modifies this
      ensures cache.Keys == set k | k in old(cache) && !Expired(old(cache)[k], now)
      ensures forall k :: k in cache ==> cache[k] == old(cache)[k]
    {
      var pending := cache.Keys;
      while pending != {}
        invariant pending <= old(cache).Keys
        invariant cache.Keys == set k | k in old(cache) && (k in pending || !Expired(old(cache)[k], now))
        invariant forall k :: k in cache ==> cache[k] == old(cache)[k]
        decreases pending
      {
        var key :| key in pending;
        if now > cache[key].expiry {
          cache := cache - {key};
        }
        pending := pending - {key};
      }
    }
  }

  /** A `get` at the instant of the `set` that stored an entry with a non-negative TTL returns the stored value. */
  method SetThenGet(c: CacheManager, key: string, value: JsValue, ttlSeconds: nat, now: int) returns (r: JsValue)
    modifies c
    ensures r == value
  {
    c.Set(key, value, ttlSeconds, now);
    r := c.Get(key, now);
  }
}

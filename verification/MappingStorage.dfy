/** One process's MappingStorage (src/services/mapping.py): its two cache dictionaries,
    updated in place exactly as the replicas of MappingCache's system are. */
module MappingStorages {
  import opened PyText
  import opened MappingStore
  import opened MappingCache

  class MappingStorage {
    var identityCache: Cache
    var externalIdCache: Cache

    function View(): Replica
      reads this
    {
      Replica(identityCache, externalIdCache)
    }

    constructor ()
      ensures View() == Replica(map[], map[])
    {
      identityCache, externalIdCache := map[], map[];
    }

    method WriteCache(q: Query, cache: Cache)
      modifies this
      ensures View() == old(View()).With(q, cache)
    {
      if q.ByIdentity? {
        identityCache := cache;
      } else {
        externalIdCache := cache;
      }
    }

    /** Expiry is checked strictly, and a useless entry is popped. */
    method CacheGet(q: Query, version: int, now: real) returns (r: Option<Answer>)
      modifies this
      ensures r == Get(old(View()).CacheFor(q), q, version, now)
      ensures View() == old(View()).With(q, AfterGet(old(View()).CacheFor(q), q, version, now))
    {
      var cache := View().CacheFor(q);
      if q !in cache {
        assert cache - {q} == cache;
        return None;
      }
      var entry := cache[q];
      if now > entry.expires || entry.version != version {
        WriteCache(q, cache - {q});
        return None;
      }
      return Some(entry.value);
    }

    method CachePut(q: Query, version: int, value: Answer, now: real, ttl: real)
      modifies this
      ensures View() == old(View()).With(q, Put(old(View()).CacheFor(q), q, Entry(version, now + ttl, value)))
    {
      var cache := View().CacheFor(q);
      if |cache| >= MAX_CACHE_ENTRIES {
        cache := map[];
      }
      WriteCache(q, cache[q := Entry(version, now + ttl, value)]);
    }

    /** The end of a lookup that missed: only a row that was found is cached. */
    method FinishLookup(q: Query, version: int, rows: Lookup<Answer>, now: real, ttl: real) returns (r: Lookup<Answer>)
      modifies this
      ensures r == rows
      ensures !rows.Found? ==> View() == old(View())
      ensures rows.Found? ==>
                View() == old(View()).With(q, Put(old(View()).CacheFor(q), q, Entry(version, now + ttl, rows.value)))
    {
      if rows.Found? {
        CachePut(q, version, rows.value, now, ttl);
      }
      r := rows;
    }

    method InvalidateIdentityCache()
      modifies this
      ensures View() == Replica(map[], old(externalIdCache))
    {
      identityCache := map[];
    }

    method InvalidateExternalIdCache()
      modifies this
      ensures View() == Replica(old(identityCache), map[])
    {
      externalIdCache := map[];
    }

    method InvalidateCache()
      modifies this
      ensures View() == Replica(map[], map[])
    {
      InvalidateIdentityCache();
      InvalidateExternalIdCache();
    }

    /** Exactly the entries tagged with the version read survive, unchanged. */
    method ReloadCacheVersion(version: int)
      modifies this
      ensures View() == Replica(Reload(old(identityCache), version), Reload(old(externalIdCache), version))
    {
      identityCache := DropStale(identityCache, version);
      externalIdCache := DropStale(externalIdCache, version);
    }
  }

  method DropStale(cache: Cache, version: int) returns (kept: Cache)
    ensures kept == Reload(cache, version)
  {
    kept := cache;
    var stale := set q | q in cache && cache[q].version != version;
    while stale != {}
      invariant forall q :: q in kept <==> q in cache && (cache[q].version == version || q in stale)
      invariant forall q | q in kept :: kept[q] == cache[q]
      invariant forall q | q in stale :: q in cache && cache[q].version != version
      decreases stale
    {
      var q :| q in stale;
      kept := kept - {q};
      stale := stale - {q};
    }
  }
}

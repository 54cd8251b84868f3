/** The stat cache: sizes seen lately, by path, each trusted for a minute. */
module StatCache {
  import opened PartNames

  datatype CacheNode = CacheNode(size: nat, cachedSince: nat)

  const CACHE_TTL := 60

  function Expired(node: CacheNode, now: nat): bool {
    node.cachedSince + CACHE_TTL < now
  }

  /** Only the size of an entry that is there changes; it does not get younger. */
  function Updated(statCache: map<string, CacheNode>, path: string, size: nat): map<string, CacheNode> {
    if path in statCache then statCache[path := statCache[path].(size := size)] else statCache
  }

  class CacheManager {
    var statCache: map<string, CacheNode>

    constructor ()
      ensures statCache == map[]
    {
      statCache := map[];
    }

    /** A hit that is not too old; an old one is erased. */
    method Get(path: string, now: nat) returns (r: Option<nat>)
      modifies this
      ensures r == if path in old(statCache) && !Expired(old(statCache)[path], now)
                   then Some(old(statCache)[path].size) else None
      ensures statCache == if r.None? then old(statCache) - {path} else old(statCache)
    {
      if path !in statCache {
        assert statCache - {path} == statCache;
        return None;
      }
      if Expired(statCache[path], now) {
        statCache := statCache - {path};
        return None;
      }
      r := Some(statCache[path].size);
    }

    method Put(path: string, size: nat, now: nat)
      modifies this
      ensures statCache == old(statCache)[path := CacheNode(size, now)]
    {
      statCache := statCache[path := CacheNode(size, now)];
    }

    method Remove(path: string)
      modifies this
      ensures statCache == old(statCache) - {path}
    {
      statCache := statCache - {path};
    }

    method Update(path: string, size: nat)
      modifies this
      ensures statCache == Updated(old(statCache), path, size)
    {
      if path in statCache {
        statCache := statCache[path := statCache[path].(size := size)];
      }
    }
  }
}

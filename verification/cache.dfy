/**
  The key/value asset cache the encryption routines work on: cache keys are
  strings, entries are binary data. Only the three calls the encryption code
  makes are modelled: reading, storing and deleting one entry.
 */
module AssetCache {
  import opened Wrappers
  import opened Crypto

  type Cache = map<string, Bytes>

  /** `Cache.assetData(key)`: the entry under `key`, if any. */
  function AssetData(c: Cache, key: string): (r: Option<Bytes>)
    ensures r.Some? <==> key in c
    ensures r.Some? ==> r.value == c[key]
  {
    if key in c then Some(c[key]) else None
  }

  /** `c` and `c'` hold the same entry, or the same absence of one, under every key outside `keys`. */
  ghost predicate SameOutside(c: Cache, c': Cache, keys: set<string>) {
    forall k :: k !in keys ==> AssetData(c', k) == AssetData(c, k)
  }

  /** `Cache.storeAssetData(data, key)`: overwrites or creates the entry under `key`. */
  function StoreAssetData(c: Cache, data: Bytes, key: string): (r: Cache)
    ensures AssetData(r, key) == Some(data)
    ensures SameOutside(c, r, {key})
  {
    c[key := data]
  }

  /** `Cache.deleteAssetData(key)`: removes the entry under `key`; a missing entry is not an error. */
  function DeleteAssetData(c: Cache, key: string): (r: Cache)
    ensures AssetData(r, key) == None
    ensures SameOutside(c, r, {key})
  {
    c - {key}
  }
}

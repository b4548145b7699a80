/**
  How the image and file asset caches name the two entries of one asset. The
  key derivation `cacheKeyForAsset` is not part of this model; it is a
  parameter, and the properties that depend on it say what they assume.
 */
module AssetKeys {
  import opened AssetCache

  /** A message nonce (`UUID`): 16 bytes. */
  type Uuid = s: seq<bv8> | |s| == 16 witness seq(16, _ => 0 as bv8)

  /**
    The assumption the protocol needs from `cacheKeyForAsset`: for the same
    nonce and variant (image format or file name), the plaintext and the
    encrypted entry get different keys.
   */
  ghost predicate SeparatesEncrypted<V(!new)>(cacheKeyForAsset: (Uuid, V, bool) -> string) {
    forall nonce, variant :: cacheKeyForAsset(nonce, variant, false) != cacheKeyForAsset(nonce, variant, true)
  }

  /** A stronger assumption, needed only to keep different assets apart: every argument triple gets its own key. */
  ghost predicate Injective<V(!new)>(cacheKeyForAsset: (Uuid, V, bool) -> string) {
    forall n1, v1, e1, n2, v2, e2 ::
      cacheKeyForAsset(n1, v1, e1) == cacheKeyForAsset(n2, v2, e2) ==> n1 == n2 && v1 == v2 && e1 == e2
  }

  /** The two cache keys of one asset. */
  function KeysOf<V(!new)>(cacheKeyForAsset: (Uuid, V, bool) -> string, nonce: Uuid, variant: V): (keys: set<string>)
    ensures cacheKeyForAsset(nonce, variant, false) in keys
    ensures cacheKeyForAsset(nonce, variant, true) in keys
    ensures |keys| <= 2
  {
    {cacheKeyForAsset(nonce, variant, false), cacheKeyForAsset(nonce, variant, true)}
  }

  /**
    When keys are injective, a cache change confined to one asset's two keys
    leaves both entries of every other asset as they were.
   */
  lemma OtherAssetUntouched<V(!new)>(cacheKeyForAsset: (Uuid, V, bool) -> string, c: Cache, c': Cache,
                               nonce: Uuid, variant: V, otherNonce: Uuid, otherVariant: V, encrypted: bool)
    requires Injective(cacheKeyForAsset)
    requires SameOutside(c, c', KeysOf(cacheKeyForAsset, nonce, variant))
    requires nonce != otherNonce || variant != otherVariant
    ensures AssetData(c', cacheKeyForAsset(otherNonce, otherVariant, encrypted))
         == AssetData(c, cacheKeyForAsset(otherNonce, otherVariant, encrypted))
  {
  }
}

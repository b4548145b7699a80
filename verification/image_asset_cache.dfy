/**
  The `ImageAssetCache` entry points: each derives the plaintext and the
  encrypted cache key of an image from its nonce and format, then calls the
  `Cache` operation of the same name.
 */
module ImageAssetCache {
  import opened Wrappers
  import opened Crypto
  import opened AssetCache
  import opened AssetEncryption
  import opened AssetKeys
  import AssetEncryptionProperties

  /** `ZMImageFormat`, an enumeration defined outside this model; only its raw value matters here. */
  datatype ImageFormat = ImageFormat(rawValue: int)

  /** Decrypts an image, checking an HMAC-SHA256 digest. */
  function DecryptAssetIfItMatchesDigest(c: Cache, cacheKeyForAsset: (Uuid, ImageFormat, bool) -> string,
                                         nonce: Uuid, format: ImageFormat,
                                         encryptionKey: Bytes, macKey: Bytes, macDigest: Bytes,
                                         p: Primitives): (r: Step<bool>)
    ensures var encryptedKey := cacheKeyForAsset(nonce, format, true);
      && (encryptedKey !in c ==> r == Step(c, false))
      && (encryptedKey in c ==>
            DecryptEffect(c, cacheKeyForAsset(nonce, format, false), encryptedKey,
                          p.hmacSha256(c[encryptedKey], macKey) == macDigest,
                          p.decrypt(c[encryptedKey], encryptionKey), r))
  {
    var plaintextKey := cacheKeyForAsset(nonce, format, false);
    var encryptedKey := cacheKeyForAsset(nonce, format, true);
    DecryptAssetIfItMatchesMacDigest(c, plaintextKey, encryptedKey, encryptionKey, macKey, macDigest, p)
  }

  /** Decrypts an image, checking a SHA-256 digest. */
  function DecryptFileIfItMatchesDigest(c: Cache, cacheKeyForAsset: (Uuid, ImageFormat, bool) -> string,
                                        nonce: Uuid, format: ImageFormat,
                                        encryptionKey: Bytes, sha256Digest: Bytes,
                                        p: Primitives): (r: Step<bool>)
    ensures var encryptedKey := cacheKeyForAsset(nonce, format, true);
      && (encryptedKey !in c ==> r == Step(c, false))
      && (encryptedKey in c ==>
            DecryptEffect(c, cacheKeyForAsset(nonce, format, false), encryptedKey,
                          p.sha256(c[encryptedKey]) == sha256Digest,
                          p.decrypt(c[encryptedKey], encryptionKey), r))
  {
    var plaintextKey := cacheKeyForAsset(nonce, format, false);
    var encryptedKey := cacheKeyForAsset(nonce, format, true);
    DecryptAssetIfItMatchesSha256Digest(c, plaintextKey, encryptedKey, encryptionKey, sha256Digest, p)
  }

  /** Encrypts an image and returns its key and the SHA-256 of the stored ciphertext. */
  function EncryptFileAndComputeSha256Digest(c: Cache, cacheKeyForAsset: (Uuid, ImageFormat, bool) -> string,
                                             nonce: Uuid, format: ImageFormat,
                                             encryptionKey: Bytes, iv: Bytes,
                                             p: Primitives): (r: Step<Option<EncryptionKeys>>)
    ensures var plaintextKey := cacheKeyForAsset(nonce, format, false);
            var encryptedKey := cacheKeyForAsset(nonce, format, true);
      && (plaintextKey !in c ==> r == Step(c, None))
      && (plaintextKey in c ==>
            && AssetData(r.cache, encryptedKey) == Some(p.encrypt(c[plaintextKey], encryptionKey, iv))
            && r.result == Some(EncryptionKeys(encryptionKey, p.sha256(r.cache[encryptedKey])))
            && SameOutside(c, r.cache, {encryptedKey}))
  {
    var plaintextKey := cacheKeyForAsset(nonce, format, false);
    var encryptedKey := cacheKeyForAsset(nonce, format, true);
    AssetEncryption.EncryptFileAndComputeSha256Digest(c, plaintextKey, encryptedKey, encryptionKey, iv, p)
  }

  /**
    Encrypting an image and decrypting it again, by nonce and format, with the
    returned key and digest, succeeds, keeps the plaintext and leaves no
    encrypted entry; nothing else in the cache changes.
   */
  lemma EncryptThenDecryptRestoresImage(c: Cache, cacheKeyForAsset: (Uuid, ImageFormat, bool) -> string,
                                        nonce: Uuid, format: ImageFormat, encryptionKey: Bytes, iv: Bytes,
                                        p: Primitives)
    requires SeparatesEncrypted(cacheKeyForAsset)
    requires DecryptInvertsEncrypt(p)
    requires cacheKeyForAsset(nonce, format, false) in c
    ensures
      var e := EncryptFileAndComputeSha256Digest(c, cacheKeyForAsset, nonce, format, encryptionKey, iv, p);
      && e.result.Some?
      && var d := DecryptFileIfItMatchesDigest(e.cache, cacheKeyForAsset, nonce, format,
                                               e.result.value.otrKey, e.result.value.sha256, p);
      && d.result
      && d.cache == DeleteAssetData(c, cacheKeyForAsset(nonce, format, true))
  {
    AssetEncryptionProperties.EncryptThenDecryptRestoresPlaintext(
      c, cacheKeyForAsset(nonce, format, false), cacheKeyForAsset(nonce, format, true), encryptionKey, iv, p);
  }

  /** A call on one image leaves both entries of every other image as they were, when keys are injective. */
  lemma CallsOnOneImageLeaveOthersAlone(c: Cache, cacheKeyForAsset: (Uuid, ImageFormat, bool) -> string,
                                        nonce: Uuid, format: ImageFormat,
                                        encryptionKey: Bytes, macKey: Bytes, macDigest: Bytes,
                                        sha256Digest: Bytes, iv: Bytes, p: Primitives,
                                        otherNonce: Uuid, otherFormat: ImageFormat, encrypted: bool)
    requires Injective(cacheKeyForAsset)
    requires nonce != otherNonce || format != otherFormat
    ensures var other := cacheKeyForAsset(otherNonce, otherFormat, encrypted);
      && AssetData(DecryptAssetIfItMatchesDigest(c, cacheKeyForAsset, nonce, format, encryptionKey, macKey, macDigest, p).cache, other)
           == AssetData(c, other)
      && AssetData(DecryptFileIfItMatchesDigest(c, cacheKeyForAsset, nonce, format, encryptionKey, sha256Digest, p).cache, other)
           == AssetData(c, other)
      && AssetData(EncryptFileAndComputeSha256Digest(c, cacheKeyForAsset, nonce, format, encryptionKey, iv, p).cache, other)
           == AssetData(c, other)
  {
    var mac := DecryptAssetIfItMatchesDigest(c, cacheKeyForAsset, nonce, format, encryptionKey, macKey, macDigest, p);
    var sha := DecryptFileIfItMatchesDigest(c, cacheKeyForAsset, nonce, format, encryptionKey, sha256Digest, p);
    var enc := EncryptFileAndComputeSha256Digest(c, cacheKeyForAsset, nonce, format, encryptionKey, iv, p);
    OtherAssetUntouched(cacheKeyForAsset, c, mac.cache, nonce, format, otherNonce, otherFormat, encrypted);
    OtherAssetUntouched(cacheKeyForAsset, c, sha.cache, nonce, format, otherNonce, otherFormat, encrypted);
    OtherAssetUntouched(cacheKeyForAsset, c, enc.cache, nonce, format, otherNonce, otherFormat, encrypted);
  }
}

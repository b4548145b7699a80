/**
  The `FileAssetCache` entry points: each derives the plaintext and the
  encrypted cache key of a file from its nonce and file name (the key's
  suffix), then calls the `Cache` operation of the same name.
 */
module FileAssetCache {
  import opened Wrappers
  import opened Crypto
  import opened AssetCache
  import opened AssetEncryption
  import opened AssetKeys
  import AssetEncryptionProperties

  /** Decrypts a file, checking an HMAC-SHA256 digest. */
  function DecryptAssetIfItMatchesDigest(c: Cache, cacheKeyForAsset: (Uuid, string, bool) -> string,
                                         nonce: Uuid, fileName: string,
                                         encryptionKey: Bytes, macKey: Bytes, macDigest: Bytes,
                                         p: Primitives): (r: Step<bool>)
    ensures var encryptedKey := cacheKeyForAsset(nonce, fileName, true);
      && (encryptedKey !in c ==> r == Step(c, false))
      && (encryptedKey in c ==>
            DecryptEffect(c, cacheKeyForAsset(nonce, fileName, false), encryptedKey,
                          p.hmacSha256(c[encryptedKey], macKey) == macDigest,
                          p.decrypt(c[encryptedKey], encryptionKey), r))
  {
    var plaintextKey := cacheKeyForAsset(nonce, fileName, false);
    var encryptedKey := cacheKeyForAsset(nonce, fileName, true);
    DecryptAssetIfItMatchesMacDigest(c, plaintextKey, encryptedKey, encryptionKey, macKey, macDigest, p)
  }

  /** Decrypts a file, checking a SHA-256 digest. */
  function DecryptFileIfItMatchesDigest(c: Cache, cacheKeyForAsset: (Uuid, string, bool) -> string,
                                        nonce: Uuid, fileName: string,
                                        encryptionKey: Bytes, sha256Digest: Bytes,
                                        p: Primitives): (r: Step<bool>)
    ensures var encryptedKey := cacheKeyForAsset(nonce, fileName, true);
      && (encryptedKey !in c ==> r == Step(c, false))
      && (encryptedKey in c ==>
            DecryptEffect(c, cacheKeyForAsset(nonce, fileName, false), encryptedKey,
                          p.sha256(c[encryptedKey]) == sha256Digest,
                          p.decrypt(c[encryptedKey], encryptionKey), r))
  {
    var plaintextKey := cacheKeyForAsset(nonce, fileName, false);
    var encryptedKey := cacheKeyForAsset(nonce, fileName, true);
    DecryptAssetIfItMatchesSha256Digest(c, plaintextKey, encryptedKey, encryptionKey, sha256Digest, p)
  }

  /** Encrypts a file and returns its key and the SHA-256 of the stored ciphertext. */
  function EncryptFileAndComputeSha256Digest(c: Cache, cacheKeyForAsset: (Uuid, string, bool) -> string,
                                             nonce: Uuid, fileName: string,
                                             encryptionKey: Bytes, iv: Bytes,
                                             p: Primitives): (r: Step<Option<EncryptionKeys>>)
    ensures var plaintextKey := cacheKeyForAsset(nonce, fileName, false);
            var encryptedKey := cacheKeyForAsset(nonce, fileName, true);
      && (plaintextKey !in c ==> r == Step(c, None))
      && (plaintextKey in c ==>
            && AssetData(r.cache, encryptedKey) == Some(p.encrypt(c[plaintextKey], encryptionKey, iv))
            && r.result == Some(EncryptionKeys(encryptionKey, p.sha256(r.cache[encryptedKey])))
            && SameOutside(c, r.cache, {encryptedKey}))
  {
    var plaintextKey := cacheKeyForAsset(nonce, fileName, false);
    var encryptedKey := cacheKeyForAsset(nonce, fileName, true);
    AssetEncryption.EncryptFileAndComputeSha256Digest(c, plaintextKey, encryptedKey, encryptionKey, iv, p)
  }

  /**
    Encrypting a file and decrypting it again, by nonce and file name, with the
    returned key and digest, succeeds, keeps the plaintext and leaves no
    encrypted entry; nothing else in the cache changes.
   */
  lemma EncryptThenDecryptRestoresFile(c: Cache, cacheKeyForAsset: (Uuid, string, bool) -> string,
                                        nonce: Uuid, fileName: string, encryptionKey: Bytes, iv: Bytes,
                                        p: Primitives)
    requires SeparatesEncrypted(cacheKeyForAsset)
    requires DecryptInvertsEncrypt(p)
    requires cacheKeyForAsset(nonce, fileName, false) in c
    ensures
      var e := EncryptFileAndComputeSha256Digest(c, cacheKeyForAsset, nonce, fileName, encryptionKey, iv, p);
      && e.result.Some?
      && var d := DecryptFileIfItMatchesDigest(e.cache, cacheKeyForAsset, nonce, fileName,
                                               e.result.value.otrKey, e.result.value.sha256, p);
      && d.result
      && d.cache == DeleteAssetData(c, cacheKeyForAsset(nonce, fileName, true))
  {
    AssetEncryptionProperties.EncryptThenDecryptRestoresPlaintext(
      c, cacheKeyForAsset(nonce, fileName, false), cacheKeyForAsset(nonce, fileName, true), encryptionKey, iv, p);
  }

  /** A call on one file leaves both entries of every other file as they were, when keys are injective. */
  lemma CallsOnOneFileLeaveOthersAlone(c: Cache, cacheKeyForAsset: (Uuid, string, bool) -> string,
                                        nonce: Uuid, fileName: string,
                                        encryptionKey: Bytes, macKey: Bytes, macDigest: Bytes,
                                        sha256Digest: Bytes, iv: Bytes, p: Primitives,
                                        otherNonce: Uuid, otherFileName: string, encrypted: bool)
    requires Injective(cacheKeyForAsset)
    requires nonce != otherNonce || fileName != otherFileName
    ensures var other := cacheKeyForAsset(otherNonce, otherFileName, encrypted);
      && AssetData(DecryptAssetIfItMatchesDigest(c, cacheKeyForAsset, nonce, fileName, encryptionKey, macKey, macDigest, p).cache, other)
           == AssetData(c, other)
      && AssetData(DecryptFileIfItMatchesDigest(c, cacheKeyForAsset, nonce, fileName, encryptionKey, sha256Digest, p).cache, other)
           == AssetData(c, other)
      && AssetData(EncryptFileAndComputeSha256Digest(c, cacheKeyForAsset, nonce, fileName, encryptionKey, iv, p).cache, other)
           == AssetData(c, other)
  {
    var mac := DecryptAssetIfItMatchesDigest(c, cacheKeyForAsset, nonce, fileName, encryptionKey, macKey, macDigest, p);
    var sha := DecryptFileIfItMatchesDigest(c, cacheKeyForAsset, nonce, fileName, encryptionKey, sha256Digest, p);
    var enc := EncryptFileAndComputeSha256Digest(c, cacheKeyForAsset, nonce, fileName, encryptionKey, iv, p);
    OtherAssetUntouched(cacheKeyForAsset, c, mac.cache, nonce, fileName, otherNonce, otherFileName, encrypted);
    OtherAssetUntouched(cacheKeyForAsset, c, sha.cache, nonce, fileName, otherNonce, otherFileName, encrypted);
    OtherAssetUntouched(cacheKeyForAsset, c, enc.cache, nonce, fileName, otherNonce, otherFileName, encrypted);
  }
}

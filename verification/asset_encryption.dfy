/**
  The encrypt/decrypt protocol that `Cache` offers for assets: an encrypted
  entry and a plaintext entry of the same asset live under two cache keys.
  Each operation is a pure function from the cache before the call to the
  cache after it, paired with the call's return value.
 */
module AssetEncryption {
  import opened Wrappers
  import opened Crypto
  import opened AssetCache

  /** `ZMImageAssetEncryptionKeys`: the key an asset was encrypted with and the SHA-256 of the ciphertext. */
  datatype EncryptionKeys = EncryptionKeys(otrKey: Bytes, sha256: Bytes)

  /** The cache after a call, and what the call returned. */
  datatype Step<R> = Step(cache: Cache, result: R)

  /**
    What a decryption does once an encrypted entry was found: `matched` is the
    outcome of the digest check and `plain` what decrypting the entry yields.
    The call reports `matched`; the encrypted entry is gone; no key other than
    the two given changes; and, when the keys differ, the plaintext key holds
    the decrypted bytes if the digest matched and decryption produced data,
    and is otherwise exactly as before.
   */
  ghost predicate DecryptEffect(c: Cache, plaintextKey: string, encryptedKey: string,
                                matched: bool, plain: Option<Bytes>, r: Step<bool>)
  {
    && r.result == matched
    && AssetData(r.cache, encryptedKey) == None
    && SameOutside(c, r.cache, {plaintextKey, encryptedKey})
    && (plaintextKey != encryptedKey ==>
          AssetData(r.cache, plaintextKey) ==
            (if matched && plain.Some? then plain else AssetData(c, plaintextKey)))
  }

  /**
    The shared tail of both decryption variants, reached once the digest
    matched: store the plaintext if decryption produced any, delete the
    encrypted entry, report success. Success is reported even when decryption
    produced nothing.
   */
  function CompleteDecryption(c: Cache, plaintextKey: string, encryptedKey: string,
                              plain: Option<Bytes>): (r: Step<bool>)
    ensures DecryptEffect(c, plaintextKey, encryptedKey, true, plain, r)
  {
    var withPlaintext := if plain.Some? then StoreAssetData(c, plain.value, plaintextKey) else c;
    Step(DeleteAssetData(withPlaintext, encryptedKey), true)
  }

  /**
    `Cache.decryptAssetIfItMatchesDigest(_:encryptedEntryKey:encryptionKey:macKey:macDigest:)`:
    checks the HMAC-SHA256 of the encrypted entry under `macKey` against `macDigest`.
   */
  function DecryptAssetIfItMatchesMacDigest(c: Cache, plaintextKey: string, encryptedKey: string,
                                            encryptionKey: Bytes, macKey: Bytes, macDigest: Bytes,
                                            p: Primitives): (r: Step<bool>)
    ensures encryptedKey !in c ==> r == Step(c, false)
    ensures encryptedKey in c ==>
      DecryptEffect(c, plaintextKey, encryptedKey,
                    p.hmacSha256(c[encryptedKey], macKey) == macDigest,
                    p.decrypt(c[encryptedKey], encryptionKey), r)
  {
    match AssetData(c, encryptedKey)
    case None => Step(c, false)
    case Some(encrypted) =>
      if p.hmacSha256(encrypted, macKey) != macDigest then
        Step(DeleteAssetData(c, encryptedKey), false)
      else
        CompleteDecryption(c, plaintextKey, encryptedKey, p.decrypt(encrypted, encryptionKey))
  }

  /**
    `Cache.decryptAssetIfItMatchesDigest(_:encryptedEntryKey:encryptionKey:sha256Digest:)`:
    checks the SHA-256 of the encrypted entry against `sha256Digest`.
   */
  function DecryptAssetIfItMatchesSha256Digest(c: Cache, plaintextKey: string, encryptedKey: string,
                                               encryptionKey: Bytes, sha256Digest: Bytes,
                                               p: Primitives): (r: Step<bool>)
    ensures encryptedKey !in c ==> r == Step(c, false)
    ensures encryptedKey in c ==>
      DecryptEffect(c, plaintextKey, encryptedKey,
                    p.sha256(c[encryptedKey]) == sha256Digest,
                    p.decrypt(c[encryptedKey], encryptionKey), r)
  {
    match AssetData(c, encryptedKey)
    case None => Step(c, false)
    case Some(encrypted) =>
      if p.sha256(encrypted) != sha256Digest then
        Step(DeleteAssetData(c, encryptedKey), false)
      else
        CompleteDecryption(c, plaintextKey, encryptedKey, p.decrypt(encrypted, encryptionKey))
  }

  /**
    `Cache.encryptFileAndComputeSHA256Digest(_:encryptedEntryKey:)`. The fresh
    key from `Data.randomEncryptionKey()` and the IV drawn inside the
    encryption primitive are passed in as `encryptionKey` and `iv`.
   */
  function EncryptFileAndComputeSha256Digest(c: Cache, plaintextKey: string, encryptedKey: string,
                                             encryptionKey: Bytes, iv: Bytes,
                                             p: Primitives): (r: Step<Option<EncryptionKeys>>)
    ensures plaintextKey !in c ==> r == Step(c, None)
    ensures plaintextKey in c ==>
      && AssetData(r.cache, encryptedKey) == Some(p.encrypt(c[plaintextKey], encryptionKey, iv))
      && r.result == Some(EncryptionKeys(encryptionKey, p.sha256(r.cache[encryptedKey])))
      && SameOutside(c, r.cache, {encryptedKey})
  {
    match AssetData(c, plaintextKey)
    case None => Step(c, None)
    case Some(plain) =>
      var encrypted := p.encrypt(plain, encryptionKey, iv);
      var hash := p.sha256(encrypted);
      Step(StoreAssetData(c, encrypted, encryptedKey), Some(EncryptionKeys(encryptionKey, hash)))
  }
}

/** Properties that relate several calls of the asset encryption protocol, or single out one path of it. */
module AssetEncryptionProperties {
  import opened Wrappers
  import opened Crypto
  import opened AssetCache
  import opened AssetEncryption

  /**
    The two steps a decryption's effect describes are the same step: the
    effect fixes the whole cache afterwards, not only the keys it names.
   */
  lemma DecryptEffectIsDeterministic(c: Cache, plaintextKey: string, encryptedKey: string,
                                     matched: bool, plain: Option<Bytes>, r1: Step<bool>, r2: Step<bool>)
    requires DecryptEffect(c, plaintextKey, encryptedKey, matched, plain, r1)
    requires DecryptEffect(c, plaintextKey, encryptedKey, matched, plain, r2)
    ensures r1 == r2
  {
    forall k
      ensures AssetData(r1.cache, k) == AssetData(r2.cache, k)
    {
      if k != plaintextKey && k != encryptedKey {
        assert AssetData(r1.cache, k) == AssetData(c, k);
      }
    }
    SameEntriesSameCache(r1.cache, r2.cache);
  }

  /** A cache is determined by what `AssetData` returns for each key. */
  lemma SameEntriesSameCache(c1: Cache, c2: Cache)
    requires forall k :: AssetData(c1, k) == AssetData(c2, k)
    ensures c1 == c2
  {
    assert c1.Keys == c2.Keys by {
      forall k | k in c1 ensures k in c2 { assert AssetData(c1, k).Some?; }
      forall k | k in c2 ensures k in c1 { assert AssetData(c2, k).Some?; }
    }
    forall k | k in c1 ensures c1[k] == c2[k] { assert AssetData(c1, k) == AssetData(c2, k); }
  }

  /**
    The documentation of both decryption variants says that on any error no
    decrypted version is created and failure is reported. The code reports
    success as soon as the MAC matched, even when decryption yields nothing:
    the encrypted entry is deleted and the plaintext key is left as it was.
   */
  lemma MacDigestMatchReportsSuccessWhenDecryptionFails(
    c: Cache, plaintextKey: string, encryptedKey: string,
    encryptionKey: Bytes, macKey: Bytes, macDigest: Bytes, p: Primitives)
    requires plaintextKey != encryptedKey
    requires encryptedKey in c
    requires p.hmacSha256(c[encryptedKey], macKey) == macDigest
    requires p.decrypt(c[encryptedKey], encryptionKey) == None
    ensures var r := DecryptAssetIfItMatchesMacDigest(c, plaintextKey, encryptedKey, encryptionKey, macKey, macDigest, p);
      && r.result
      && AssetData(r.cache, encryptedKey) == None
      && AssetData(r.cache, plaintextKey) == AssetData(c, plaintextKey)
  {
  }

  /** The same disagreement for the SHA-256 variant. */
  lemma Sha256DigestMatchReportsSuccessWhenDecryptionFails(
    c: Cache, plaintextKey: string, encryptedKey: string,
    encryptionKey: Bytes, sha256Digest: Bytes, p: Primitives)
    requires plaintextKey != encryptedKey
    requires encryptedKey in c
    requires p.sha256(c[encryptedKey]) == sha256Digest
    requires p.decrypt(c[encryptedKey], encryptionKey) == None
    ensures var r := DecryptAssetIfItMatchesSha256Digest(c, plaintextKey, encryptedKey, encryptionKey, sha256Digest, p);
      && r.result
      && AssetData(r.cache, encryptedKey) == None
      && AssetData(r.cache, plaintextKey) == AssetData(c, plaintextKey)
  {
  }

  /**
    The two variants differ only in the digest they check: given an encrypted
    entry, they leave the same cache and report the same result exactly when
    their two checks come out the same.
   */
  lemma VariantsAgreeExactlyWhenChecksAgree(
    c: Cache, plaintextKey: string, encryptedKey: string,
    encryptionKey: Bytes, macKey: Bytes, macDigest: Bytes, sha256Digest: Bytes, p: Primitives)
    requires encryptedKey in c
    ensures
      DecryptAssetIfItMatchesMacDigest(c, plaintextKey, encryptedKey, encryptionKey, macKey, macDigest, p)
        == DecryptAssetIfItMatchesSha256Digest(c, plaintextKey, encryptedKey, encryptionKey, sha256Digest, p)
      <==>
      ((p.hmacSha256(c[encryptedKey], macKey) == macDigest) == (p.sha256(c[encryptedKey]) == sha256Digest))
  {
  }

  /**
    Whatever a first decryption found, it removed the encrypted entry, so a
    second decryption of the same asset reports failure and changes nothing.
   */
  lemma SecondDecryptionFindsNothing(
    c: Cache, plaintextKey: string, encryptedKey: string,
    encryptionKey: Bytes, sha256Digest: Bytes, p: Primitives)
    ensures
      var first := DecryptAssetIfItMatchesSha256Digest(c, plaintextKey, encryptedKey, encryptionKey, sha256Digest, p);
      var second := DecryptAssetIfItMatchesSha256Digest(first.cache, plaintextKey, encryptedKey, encryptionKey, sha256Digest, p);
      second == Step(first.cache, false)
  {
  }

  /**
    Encrypting an asset and then decrypting it with the key and digest the
    encryption returned succeeds and restores the cache it started from,
    except that no encrypted entry is left behind.
   */
  lemma EncryptThenDecryptRestoresPlaintext(
    c: Cache, plaintextKey: string, encryptedKey: string, encryptionKey: Bytes, iv: Bytes, p: Primitives)
    requires DecryptInvertsEncrypt(p)
    requires plaintextKey != encryptedKey
    requires plaintextKey in c
    ensures
      var e := EncryptFileAndComputeSha256Digest(c, plaintextKey, encryptedKey, encryptionKey, iv, p);
      && e.result.Some?
      && var d := DecryptAssetIfItMatchesSha256Digest(e.cache, plaintextKey, encryptedKey,
                                                      e.result.value.otrKey, e.result.value.sha256, p);
      && d.result
      && AssetData(d.cache, plaintextKey) == Some(c[plaintextKey])
      && d.cache == DeleteAssetData(c, encryptedKey)
  {
  }

  /**
    The code stores the plaintext before it deletes the encrypted entry, so
    when both entries share one key, a successful decryption ends with no
    entry at all under that key, although it reports success.
   */
  lemma AliasedKeysLoseDecryptedData(
    c: Cache, key: string, encryptionKey: Bytes, sha256Digest: Bytes, p: Primitives)
    requires key in c
    requires p.sha256(c[key]) == sha256Digest
    requires p.decrypt(c[key], encryptionKey).Some?
    ensures var r := DecryptAssetIfItMatchesSha256Digest(c, key, key, encryptionKey, sha256Digest, p);
      r.result && AssetData(r.cache, key) == None
  {
  }

  /** With distinct keys, encryption keeps the plaintext entry; with one shared key it replaces it by the ciphertext. */
  lemma EncryptionKeepsPlaintextExactlyWithDistinctKeys(
    c: Cache, plaintextKey: string, encryptedKey: string, encryptionKey: Bytes, iv: Bytes, p: Primitives)
    requires plaintextKey in c
    ensures var r := EncryptFileAndComputeSha256Digest(c, plaintextKey, encryptedKey, encryptionKey, iv, p);
      AssetData(r.cache, plaintextKey) ==
        Some(if plaintextKey == encryptedKey then p.encrypt(c[plaintextKey], encryptionKey, iv) else c[plaintextKey])
  {
  }
}

# Asset encryption in the Wire data model's asset cache

This project models the encrypt/decrypt protocol that Wire's data model runs on
its asset cache (`Source/Model/Message/AssetEncryption.swift`). A message asset
(an image or a file) lives in a key→bytes cache under two keys: one for the
plaintext and one for the encrypted form.

- **Decrypting** an asset reads the encrypted entry and checks its digest. One
  variant checks an HMAC-SHA256 MAC; the other checks a plain SHA-256 digest.
  - On a mismatch it deletes the encrypted entry and reports failure.
  - On a match it stores the decrypted bytes under the plaintext key, if
    decryption produced any. It then deletes the encrypted entry and reports
    success.
- **Encrypting** an asset reads the plaintext entry and encrypts it under a
  fresh key. It stores the ciphertext under the encrypted key and returns that
  key together with the SHA-256 of the ciphertext.
- **`ImageAssetCache` and `FileAssetCache`** derive the two keys with
  `cacheKeyForAsset`. An image's keys come from its nonce and format; a file's
  come from its nonce and file name. Both then delegate to the cache operations.

## Layout

- `wrappers.dfy` (`Wrappers`): `Option`, the model of Swift optionals.
- `crypto.dfy` (`Crypto`): `Bytes` and `Primitives`, a record holding the HMAC,
  SHA-256, encrypt and decrypt functions. `DecryptInvertsEncrypt` is the one
  assumption made about them, and only the round-trip lemmas require it.
- `cache.dfy` (`AssetCache`): the cache as an immutable `map<string, Bytes>`,
  with the three calls the protocol makes: `AssetData`, `StoreAssetData` and
  `DeleteAssetData`. It also defines the frame predicate `SameOutside`.
- `asset_encryption.dfy` (`AssetEncryption`): the three `Cache` operations.
  Each is a pure function that returns a `Step`: the cache after the call plus
  the call's return value. `DecryptEffect` states the full effect of a
  decryption once an encrypted entry was found. Both decryption variants are
  specified through it.
- `asset_encryption_properties.dfy` (`AssetEncryptionProperties`): lemmas that
  relate several calls or single out one path.
- `asset_keys.dfy` (`AssetKeys`): the key-derivation assumptions and the
  non-interference lemma for different assets.
- `image_asset_cache.dfy` (`ImageAssetCache`) and `file_asset_cache.dfy`
  (`FileAssetCache`): the two sets of wrappers, each with its own round-trip
  and non-interference lemmas.

## Documentation versus code

Each decryption entry point has the same doc comment
(`Source/Model/Message/AssetEncryption.swift:25-27`, repeated at :47-49 and in
the wrappers). It says that on any error no decrypted version is created and
failure is reported. The code at :39-44 and :61-66 does something else. Once the
digest matches, it reports success even when decryption yields no data. In that
case it deletes the encrypted entry and leaves the plaintext key untouched. The
model follows the code. The lemmas
`AssetEncryptionProperties.MacDigestMatchReportsSuccessWhenDecryptionFails` and
`AssetEncryptionProperties.Sha256DigestMatchReportsSuccessWhenDecryptionFails`
state this case on its own.

## Design decisions

- **Total cache operations.** The cache-level operations have no precondition
  that the two keys differ, because the code does not check for that. The model
  keeps the code's behaviour when the keys are equal:
  - Decryption stores the plaintext and then deletes the same key, so the
    decrypted data is lost (`AliasedKeysLoseDecryptedData`).
  - Encryption overwrites the plaintext with the ciphertext.

  Properties that need distinct keys either say so in their contract or
  require it.
- **Assumptions on `cacheKeyForAsset`.** At the wrapper level,
  `cacheKeyForAsset` is a parameter. `SeparatesEncrypted` is the assumption
  that it gives different keys for `encrypted: false` and `encrypted: true`,
  and the round-trip lemmas require it. `Injective` is needed only to keep two
  different assets apart.

## Model

| member | source | states |
|---|---|---|
| AssetEncryption.DecryptAssetIfItMatchesMacDigest | Source/Model/Message/AssetEncryption.swift:28-45 | With no encrypted entry: returns false and leaves the cache unchanged. Otherwise: the encrypted entry is gone afterwards, and the result is true exactly when the HMAC-SHA256 of the entry under the MAC key equals the expected digest. With distinct keys, the plaintext key holds the decrypted bytes exactly when the MAC matched and decryption produced data; otherwise it keeps its previous entry, or stays absent. No other key changes. |
| AssetEncryption.DecryptAssetIfItMatchesSha256Digest | Source/Model/Message/AssetEncryption.swift:50-67 | The same effects, with the SHA-256 of the encrypted entry as the check. |
| AssetEncryption.CompleteDecryption | Source/Model/Message/AssetEncryption.swift:39-44 | After a digest match: reports success whether or not decryption produced data, and removes the encrypted entry. The plaintext key receives the data only if there is some. No third key changes. |
| AssetEncryption.EncryptFileAndComputeSha256Digest | Source/Model/Message/AssetEncryption.swift:70-81 | With no plaintext entry: returns nil and leaves the cache unchanged. Otherwise the encrypted key holds the encryption of the plaintext under the given key and IV. The returned `otrKey` is that key, and the returned `sha256` is the SHA-256 of the entry now stored. Only the encrypted key changes. |
| AssetEncryptionProperties.DecryptEffectIsDeterministic | Source/Model/Message/AssetEncryption.swift:28-45 | The stated effect of a decryption leaves no freedom: two results that both satisfy it are the same cache and the same result. |
| AssetEncryptionProperties.MacDigestMatchReportsSuccessWhenDecryptionFails | Source/Model/Message/AssetEncryption.swift:39-44 | If the MAC matches but decryption yields nothing, the call still returns true. The encrypted entry is deleted and the plaintext entry is left as it was. This contradicts the doc comment at lines 25-27. |
| AssetEncryptionProperties.Sha256DigestMatchReportsSuccessWhenDecryptionFails | Source/Model/Message/AssetEncryption.swift:61-66 | The same for the SHA-256 variant, whose doc comment at lines 47-49 makes the same promise. |
| AssetEncryptionProperties.VariantsAgreeExactlyWhenChecksAgree | Source/Model/Message/AssetEncryption.swift:28-67 | Given an encrypted entry, the MAC and SHA-256 variants return the same cache and result if and only if their two digest checks come out the same. |
| AssetEncryptionProperties.SecondDecryptionFindsNothing | Source/Model/Message/AssetEncryption.swift:50-67 | Every decryption removes the encrypted entry, so decrypting the same asset again returns false and changes nothing. |
| AssetEncryptionProperties.EncryptThenDecryptRestoresPlaintext | Source/Model/Message/AssetEncryption.swift:50-81 | Encrypting and then running the SHA-256 decryption with the returned key and digest succeeds. It ends in the original cache minus the encrypted key, so the original plaintext is kept. Needs distinct keys and that decryption inverts encryption. |
| AssetEncryptionProperties.AliasedKeysLoseDecryptedData | Source/Model/Message/AssetEncryption.swift:61-66 | If both keys are the same, a successful decryption reports true but leaves no entry under that key. |
| AssetEncryptionProperties.EncryptionKeepsPlaintextExactlyWithDistinctKeys | Source/Model/Message/AssetEncryption.swift:75-78 | With distinct keys, encryption retains the plaintext entry. With one shared key, it replaces the plaintext with the ciphertext. |
| AssetKeys.OtherAssetUntouched | Source/Model/Message/AssetEncryption.swift:89-92 | If the key derivation is injective, a change confined to one asset's two keys leaves both entries of every other asset unchanged. |
| ImageAssetCache.DecryptAssetIfItMatchesDigest | Source/Model/Message/AssetEncryption.swift:89-93 | The MAC decryption effect on the keys derived from nonce and format, with encrypted set to false and to true. |
| ImageAssetCache.DecryptFileIfItMatchesDigest | Source/Model/Message/AssetEncryption.swift:98-102 | The SHA-256 decryption effect on the image's two derived keys. |
| ImageAssetCache.EncryptFileAndComputeSha256Digest | Source/Model/Message/AssetEncryption.swift:105-109 | The encryption effect on the image's two derived keys. |
| ImageAssetCache.EncryptThenDecryptRestoresImage | Source/Model/Message/AssetEncryption.swift:98-109 | Encrypting an image and decrypting it by the same nonce and format with the returned key and digest succeeds. The cache ends as the original minus the encrypted entry. Assumes the key derivation separates encrypted from plaintext keys. |
| ImageAssetCache.CallsOnOneImageLeaveOthersAlone | Source/Model/Message/AssetEncryption.swift:89-109 | Under injective keys, each of the three image calls leaves every other image's entries unchanged. |
| FileAssetCache.DecryptAssetIfItMatchesDigest | Source/Model/Message/AssetEncryption.swift:117-121 | The MAC decryption effect on the keys derived from nonce and file name. |
| FileAssetCache.DecryptFileIfItMatchesDigest | Source/Model/Message/AssetEncryption.swift:126-130 | The SHA-256 decryption effect on the file's two derived keys. |
| FileAssetCache.EncryptFileAndComputeSha256Digest | Source/Model/Message/AssetEncryption.swift:133-137 | The encryption effect on the file's two derived keys. |
| FileAssetCache.EncryptThenDecryptRestoresFile | Source/Model/Message/AssetEncryption.swift:126-137 | The round trip for files by nonce and file name, under the same assumptions as for images. |
| FileAssetCache.CallsOnOneFileLeaveOthersAlone | Source/Model/Message/AssetEncryption.swift:117-137 | Under injective keys, each of the three file calls leaves every other file's entries unchanged. |

## Left out

- The cryptographic primitives (`zmHMACSHA256Digest`, `zmSHA256Digest`, `zmEncryptPrefixingPlainTextIV`, `zmDecryptPrefixedPlainTextIV`) are foreign code. They are parameters of the model, and nothing is assumed about them except, in the round-trip lemmas, that decryption inverts encryption.
- `Data.randomEncryptionKey()` and the random IV drawn inside the encryption primitive are sources of randomness. They are parameters of the encryption operation, and key and IV lengths are not constrained.
- The storage behind `Cache` (`assetData`, `storeAssetData`, `deleteAssetData`) does disk I/O and its code is not part of this model. It is modelled as an immutable map, with the usual read, overwrite and delete semantics.
- `cacheKeyForAsset` is not part of this model. It is a parameter, and properties that depend on its behaviour state their assumption about it.
- `ZMImageFormat` is an enumeration defined elsewhere, so it is modelled by its raw value only.
- The conversation observer, conversation list observer and message obfuscation tests exercise code that is not part of this model, so their behaviour is not modelled.

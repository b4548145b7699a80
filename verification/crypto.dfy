/**
  The cryptographic primitives the asset cache relies on. Their implementations
  are outside this model, so they appear as a record of total functions that
  every operation receives as a parameter. Nothing is assumed about them except,
  where a property needs it, that decryption inverts encryption.
 */
module Crypto {
  import opened Wrappers

  /** Binary data (Foundation's `Data`). */
  type Bytes = seq<bv8>

  /**
    - hmacSha256(data, key): the HMAC-SHA256 of `data` under `key`
    - sha256(data): the SHA-256 digest of `data`
    - encrypt(plaintext, key, iv): AES encryption that prefixes the output with
      the plain-text IV; the IV is random in the implementation, so it is an
      explicit argument here
    - decrypt(ciphertext, key): the inverse, reading the IV from the prefix;
      None when the data cannot be decrypted
   */
  datatype Primitives = Primitives(
    hmacSha256: (Bytes, Bytes) -> Bytes,
    sha256: Bytes -> Bytes,
    encrypt: (Bytes, Bytes, Bytes) -> Bytes,
    decrypt: (Bytes, Bytes) -> Option<Bytes>)

  /** Decrypting with the key used to encrypt gives back the plaintext, whatever the IV. */
  ghost predicate DecryptInvertsEncrypt(p: Primitives) {
    forall plaintext, key, iv :: p.decrypt(p.encrypt(plaintext, key, iv), key) == Some(plaintext)
  }
}

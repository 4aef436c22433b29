/** Cryptography as far as the server and the client use it, as functions whose laws are
    hypotheses of the theorems that need them. */
module Cryptography {
  import opened Octets
  import opened Text

  /** `wrap` encrypts an AES key with a public key and `unwrap` recovers a usable AES key with the
      private one; either can fail. `encrypt` and `decrypt` are the symmetric pair; decryption
      rejects malformed input. */
  datatype Crypto = Crypto(
    importable: Bytes -> bool,
    wrap: (Bytes, Bytes) -> Option<Bytes>,
    unwrap: (Bytes, Bytes) -> Option<Bytes>,
    encrypt: (Bytes, Bytes) -> Bytes,
    decrypt: (Bytes, Bytes) -> Option<Bytes>)

  datatype KeyPair = KeyPair(private: Bytes, public: Bytes)

  const AES_KEY_SIZE: nat := 32

  /** What is encrypted can be decrypted with the same key, and is never empty. */
  ghost predicate Symmetric(k: Crypto) {
    forall key: Bytes, plain: Bytes :: |key| == AES_KEY_SIZE ==>
      k.decrypt(key, k.encrypt(key, plain)) == Some(plain) && k.encrypt(key, plain) != []
  }

  /** A key wrapped for the pair is recovered by it. */
  ghost predicate Matching(k: Crypto, pair: KeyPair) {
    forall key: Bytes :: |key| == AES_KEY_SIZE ==>
      k.wrap(pair.public, key).Some? && k.unwrap(pair.private, k.wrap(pair.public, key).value) == Some(key)
  }
}

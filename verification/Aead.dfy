// Authenticated encryption as the repository uses it: AES-256-GCM with a 12-byte nonce and no
// associated data.  Only the laws of sections 2.1, 2.2 and 5.2 of RFC 5116 are used: opening inverts
// sealing, opening succeeds only on sealed pairs, and sealing adds 16 bytes.
module Aead {
  import opened Core

  const TAG_SIZE := 16
  const NONCE_SIZE := 12

  /** seal(key, nonce, plaintext) and open(key, nonce, ciphertext). */
  datatype Scheme = Scheme(seal: (Bytes, Bytes, Bytes) -> Bytes, open: (Bytes, Bytes, Bytes) -> Option<Bytes>)

  ghost predicate Lawful(a: Scheme) {
    && (forall k, n, p :: a.open(k, n, a.seal(k, n, p)) == Some(p))
    && (forall k, n, p :: |a.seal(k, n, p)| == |p| + TAG_SIZE)
    && (forall k, n, c :: a.open(k, n, c).Some? ==> c == a.seal(k, n, a.open(k, n, c).value))
  }
}

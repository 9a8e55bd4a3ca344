/** The primitives the envelope code calls. They are uninterpreted; what a theorem needs of them is a hypothesis. */
module Crypto {
  import opened Wrappers
  import opened Bytes

  datatype Primitives = Primitives(
    seal: (bytes, bytes, bytes, bytes) -> Result<bytes>,   // key, nonce, plaintext, aad
    open: (bytes, bytes, bytes, bytes) -> Result<bytes>,   // key, nonce, ciphertext, aad
    expand: (bytes, bytes, nat) -> Result<bytes>,          // HKDF: input key, info, output length
    mac: (bytes, bytes) -> bytes,                          // HMAC: key, message
    ctHash: bytes -> bytes,
    decapsulate: (bytes, bytes) -> Result<bytes>)          // secret key, KEM ciphertext

  /** Opening undoes sealing, and sealing adds a 16-byte tag. */
  ghost predicate OpensWhatItSeals(c: Primitives) {
    forall key, nonce, pt, aad ::
      var r := c.seal(key, nonce, pt, aad);
      r.Ok? ==> c.open(key, nonce, r.value, aad) == Ok(pt) && |r.value| == |pt| + 16
  }

  const PROTOCOL_ID: bytes := Ascii("citadel-env-v1")

  /** The key schedule of citadel-envelope/src/kdf.rs. */
  function DeriveKey(c: Primitives, sharedSecret: bytes, ctHash: bytes, context: bytes): Result<bytes> {
    c.expand(sharedSecret, PROTOCOL_ID + Ascii("|aes|") + ctHash + context, 32)
  }
}

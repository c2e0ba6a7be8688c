/** The cryptographic primitives the server calls, as uninterpreted functions
    passed in by the caller: only their input and output shapes are modelled. */
module Crypto {
  import opened Text

  type Digest32 = s: seq<byte> | |s| == 32 witness seq(32, i => 0 as byte)
  type Digest64 = s: seq<byte> | |s| == 64 witness seq(64, i => 0 as byte)

  datatype Primitives = Primitives(
    /** SHA-256 of a byte string. */
    sha256: seq<byte> -> Digest32,
    /** HMAC-SHA512 keyed by the first argument over the second. */
    hmacSha512: (seq<byte>, seq<byte>) -> Digest64,
    /** Ed25519 verification of (message, signature, public key). */
    verifySignature: (seq<byte>, seq<byte>, seq<byte>) -> bool)
}

/** Ed25519 signatures (section 5.1 of RFC 8032) as the channel and the
    ledger use them: a key pair, signing a digest, checking a signature, and
    the hex form a signature travels in. The curve arithmetic is not
    modelled; a scheme is a record of its three operations. */
module Signing {
  import opened Wrappers
  import opened Encoding

  type SigningKey = seq<byte>
  type VerifyKey = seq<byte>
  type Signature = seq<byte>

  datatype SignatureScheme = SignatureScheme(
    verifyKeyOf: SigningKey -> VerifyKey,
    sign: (SigningKey, seq<byte>) -> Signature,
    verify: (VerifyKey, seq<byte>, Signature) -> bool)

  /** The one property the protocol relies on: an honest signature checks
      under the signer's own verification key. */
  ghost predicate Sound(scheme: SignatureScheme)
  {
    forall sk, msg :: scheme.verify(scheme.verifyKeyOf(sk), msg, scheme.sign(sk, msg))
  }

  /** `Signature.to_hex`. */
  function SignatureToHex(sig: Signature): (s: string)
    ensures |s| == 2 * |sig|
    ensures SignatureFromHex(s) == Some(sig)
  {
    BytesHexRoundTrip(sig);
    BytesToHex(sig)
  }

  /** `Signature.from_hex`; None where `bytes.fromhex` raises. */
  function SignatureFromHex(s: string): Option<Signature>
  {
    BytesFromHex(s)
  }
}

/** Values shared by the broker modules: digests, keys and signatures as symbolic terms.

    A digest is its preimage under a constructor, so distinct inputs have distinct
    digests. A signature names the key and the message it was made over, so it verifies
    for that key and message alone. */
module Terms {

  datatype Option<+T> = None | Some(value: T)

  /** SHA-256 of a text, or of the hex text of another digest. */
  datatype Digest = Sha256(preimage: string) | Sha256OfHex(inner: Digest)

  datatype KeyKind = Ed25519 | X25519 | OtherKind

  datatype PublicKey = PublicKey(kind: KeyKind, der: string)

  /** A PEM text with the key it parses to, if it parses at all. Many texts can carry one key. */
  datatype Pem = Pem(text: string, key: Option<PublicKey>) {
    predicate Holds(kind: KeyKind) { key.Some? && key.value.kind == kind }
  }

  datatype Message = PairingProof(pairKey: Digest, expiresAtMs: int) | NonceBytes(nonce: string)

  datatype Signature = SignedBy(key: PublicKey, message: Message) | NotASignature(text: string)

  predicate Verifies(pem: Pem, message: Message, proof: Signature) {
    pem.key.Some? && proof == SignedBy(pem.key.value, message)
  }

  /** Fingerprint of a signing key: the digest of its DER form, so it ignores PEM layout. */
  function Fingerprint(key: PublicKey): Digest { Sha256(key.der) }
}

/** Idealised primitives: every foreign cryptographic call is a free constructor, so that
    opening, agreeing and verifying succeed exactly on what was sealed, agreed and signed. */
module Ideal {

  datatype Option<+T> = None | Some(value: T)

  /** A 256-bit key: drawn from the CSPRNG, or derived by X25519 and HKDF from two parties. */
  datatype Key = Random(seed: nat) | Derived(parties: set<nat>, salt: nat, info: string)

  datatype Plain = KeyBytes(key: Key) | Text(text: string)

  /** AES-256-GCM output: one box per key, nonce and additional data. */
  datatype Sealed = Sealed(key: Key, nonce: nat, aad: string, plain: Plain)

  function Open(key: Key, nonce: nat, box: Sealed, aad: string): Option<Plain> {
    if box.key == key && box.nonce == nonce && box.aad == aad then Some(box.plain) else None
  }

  /** An X25519 public key; a low-order point agrees on an all-zero secret with everyone. */
  datatype PublicKey = Point(secret: nat) | LowOrder

  /** X25519 followed by HKDF. An all-zero shared secret is refused. */
  function DeriveWrapKey(secret: nat, peer: PublicKey, salt: nat, info: string): Option<Key> {
    match peer
    case LowOrder => None
    case Point(other) => Some(Derived({secret, other}, salt, info))
  }

  /** Ed25519: a signature names its signer and its message. */
  datatype Signature = Signature(signer: nat, message: string)

  function Verify(signingKey: nat, message: string, signature: Signature): bool {
    signature == Signature(signingKey, message)
  }

  /** Both ends of an agreement derive the same wrapping key. */
  lemma AgreementIsSymmetric(a: nat, b: nat, salt: nat, info: string)
    ensures DeriveWrapKey(a, Point(b), salt, info) == DeriveWrapKey(b, Point(a), salt, info)
  {
    assert {a, b} == {b, a};
  }
}

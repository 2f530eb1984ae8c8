/** A symbolic model of namada's standalone signatures
    (`standalone_signature`, `verify_standalone_sig`).

    A key pair is identified by a number; a signature records the public key
    of its signer and the exact payload it was made over.  Verification
    succeeds exactly when the claimed signer and payload are the recorded
    ones.  This is the ideal (unforgeable) scheme: it makes "signing then
    verifying succeeds" and "a signature binds its payload" provable facts
    instead of axioms. */
module Crypto {

  datatype PublicKey = PublicKey(raw: nat)

  datatype SecretKey = SecretKey(raw: nat)

  /** The public key of a secret key (`RefTo::ref_to`). */
  function RefTo(sk: SecretKey): PublicKey {
    PublicKey(sk.raw)
  }

  datatype Signature<M> = Signature(signer: PublicKey, payload: M)

  function StandaloneSignature<M>(sk: SecretKey, data: M): Signature<M> {
    Signature(RefTo(sk), data)
  }

  predicate VerifyStandaloneSig<M(==)>(data: M, pk: PublicKey, sig: Signature<M>) {
    sig.signer == pk && sig.payload == data
  }

  /** Verifying a fresh signature with the signer's public key succeeds, and
      with no other key or payload. */
  lemma SignThenVerify<M>(sk: SecretKey, data: M, other: M, pk: PublicKey)
    ensures VerifyStandaloneSig(data, RefTo(sk), StandaloneSignature(sk, data))
    ensures VerifyStandaloneSig(other, pk, StandaloneSignature(sk, data)) <==> other == data && pk == RefTo(sk)
  {
  }
}

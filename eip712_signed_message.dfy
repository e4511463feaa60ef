/**
 * The signed-message envelope of EIP-712 (typed structured-data hashing and signing).
 * The hashing and the ECDSA recovery are a foreign library: recovery is an
 * uninterpreted function value of type `Recover<T>`.
 */
module Eip712SignedMessage {
  import opened Types

  /** The EIP-712 domain separator that scopes every signature. */
  datatype Eip712Domain = Eip712Domain(name: string, version: string, chainId: nat, verifyingContract: Address)

  /** An opaque signature. */
  datatype Signature = Signature(bytes: seq<bv8>)

  /** A message together with its signature; immutable once built. */
  datatype SignedMessage<T> = SignedMessage(message: T, signature: Signature)

  /** Signer recovery under a domain: the recovered address, or the library's error. */
  type Recover<!T> = (Eip712Domain, SignedMessage<T>) -> Result<Address, Error>
}

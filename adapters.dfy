/**
 * The two capabilities the auditor is generic over. Both are external: the
 * receipt-checks adapter is a record of four fallible, read-only predicates, and the
 * escrow adapter is an object whose one operation has a side effect that the model
 * records without giving it a balance semantics.
 */
module Adapters {
  import opened Types
  import opened Eip712SignedMessage
  import opened TapReceipt

  /**
   * The receipt-checks capability. Every predicate may fail with an `AdapterFault`.
   * `isValidValue` is a partial function: an implementation may refuse (panic on)
   * query ids it knows nothing about.
   */
  datatype ReceiptChecksAdapter = ReceiptChecksAdapter(
    isUnique: (SignedMessage<Receipt>, U64) -> Result<bool, AdapterFault>,
    isValidAllocationId: Address -> Result<bool, AdapterFault>,
    isValidValue: (U128, U64) --> Result<bool, AdapterFault>,
    isValidGatewayId: Address -> Result<bool, AdapterFault>)

  /** One call of `subtract_escrow`. */
  datatype EscrowRequest = EscrowRequest(signer: Address, value: U128)

  /**
   * The escrow capability. `requests` is every `subtract_escrow` call received so far;
   * `backend` is the hidden implementation's answer to a request given the calls
   * before it.
   */
  class EscrowAdapter {
    var requests: seq<EscrowRequest>
    const backend: (seq<EscrowRequest>, EscrowRequest) -> Result<(), AdapterFault>

    constructor (backend: (seq<EscrowRequest>, EscrowRequest) -> Result<(), AdapterFault>)
      ensures requests == [] && this.backend == backend
    {
      requests := [];
      this.backend := backend;
    }

    /** Reserves `value` against `signer`'s escrow: records the call and returns the backend's answer. */
    method SubtractEscrow(signer: Address, value: U128) returns (r: Result<(), AdapterFault>)
      modifies this
      ensures requests == old(requests) + [EscrowRequest(signer, value)]
      ensures r == backend(old(requests), EscrowRequest(signer, value))
    {
      r := backend(requests, EscrowRequest(signer, value));
      requests := requests + [EscrowRequest(signer, value)];
    }
  }
}

/**
 * The receipt auditor: it owns the timestamp watermark and the two adapters, runs one
 * named check against a signed receipt, and validates the signature of a receipt
 * aggregate voucher.
 */
module Auditor {
  import opened Types
  import opened Eip712SignedMessage
  import opened TapReceipt
  import opened Adapters

  class ReceiptAuditor {
    const domainSeparator: Eip712Domain
    const escrowAdapter: EscrowAdapter
    const receiptChecksAdapter: ReceiptChecksAdapter
    /** Signer recovery of the signing library, for receipts and for vouchers. */
    const recoverReceiptSigner: Recover<Receipt>
    const recoverRavSigner: Recover<ReceiptAggregateVoucher>
    /** Exclusive lower bound on the timestamps of admitted receipts. */
    var minTimestampNs: U64

    constructor (domainSeparator: Eip712Domain, escrowAdapter: EscrowAdapter, receiptChecksAdapter: ReceiptChecksAdapter,
                 recoverReceiptSigner: Recover<Receipt>, recoverRavSigner: Recover<ReceiptAggregateVoucher>,
                 startingMinTimestampNs: U64)
      ensures this.domainSeparator == domainSeparator
      ensures this.escrowAdapter == escrowAdapter && this.receiptChecksAdapter == receiptChecksAdapter
      ensures this.recoverReceiptSigner == recoverReceiptSigner && this.recoverRavSigner == recoverRavSigner
      ensures minTimestampNs == startingMinTimestampNs
      ensures unchanged(escrowAdapter)
    {
      this.domainSeparator := domainSeparator;
      this.escrowAdapter := escrowAdapter;
      this.receiptChecksAdapter := receiptChecksAdapter;
      this.recoverReceiptSigner := recoverReceiptSigner;
      this.recoverRavSigner := recoverRavSigner;
      minTimestampNs := startingMinTimestampNs;
    }

    /** Overwrites the watermark with any value, lower or higher than before. */
    method UpdateMinTimestampNs(minTimestampNs: U64)
      modifies this`minTimestampNs
      ensures this.minTimestampNs == minTimestampNs
      ensures unchanged(escrowAdapter)
    {
      this.minTimestampNs := minTimestampNs;
    }

    /**
     * Runs one check. Only `CheckValue` looks at `queryId`, only `CheckUnique` at
     * `receiptId`, and only `CheckAndReserveEscrow` touches the escrow adapter.
     */
    method Check(receiptCheck: ReceiptCheck, signedReceipt: SignedMessage<Receipt>, queryId: U64, receiptId: U64)
      returns (r: ReceiptResult<()>)
      requires receiptCheck == CheckValue ==> receiptChecksAdapter.isValidValue.requires(signedReceipt.message.value, queryId)
      modifies escrowAdapter
      ensures receiptCheck == CheckUnique ==> r == UniquenessCheck(signedReceipt, receiptId)
      ensures receiptCheck == CheckAllocationId ==> r == AllocationIdCheck(signedReceipt)
      ensures receiptCheck == CheckTimestamp ==> r == TimestampCheck(signedReceipt)
      ensures receiptCheck == CheckValue ==> r == ValueCheck(signedReceipt, queryId)
      ensures receiptCheck == CheckSignature ==> r == SignatureCheck(signedReceipt)
      ensures receiptCheck == CheckAndReserveEscrow ==>
                ReservesEscrow(signedReceipt, old(escrowAdapter.requests), escrowAdapter.requests, r)
      ensures receiptCheck != CheckAndReserveEscrow ==> unchanged(escrowAdapter)
      ensures unchanged(this)
    {
      match receiptCheck
      case CheckUnique => r := UniquenessCheck(signedReceipt, receiptId);
      case CheckAllocationId => r := AllocationIdCheck(signedReceipt);
      case CheckSignature => r := SignatureCheck(signedReceipt);
      case CheckTimestamp => r := TimestampCheck(signedReceipt);
      case CheckValue => r := ValueCheck(signedReceipt, queryId);
      case CheckAndReserveEscrow => r := ReserveEscrowCheck(signedReceipt);
    }

    function UniquenessCheck(signedReceipt: SignedMessage<Receipt>, receiptId: U64): (r: ReceiptResult<()>)
      ensures r == Ok(()) <==> receiptChecksAdapter.isUnique(signedReceipt, receiptId) == Ok(true)
      ensures r == Err(NonUniqueReceipt) <==> receiptChecksAdapter.isUnique(signedReceipt, receiptId) == Ok(false)
      ensures receiptChecksAdapter.isUnique(signedReceipt, receiptId).Err? ==>
                r == Err(CheckFailedToComplete(receiptChecksAdapter.isUnique(signedReceipt, receiptId).error))
    {
      match receiptChecksAdapter.isUnique(signedReceipt, receiptId)
      case Err(fault) => Err(CheckFailedToComplete(fault))
      case Ok(unique) => if !unique then Err(NonUniqueReceipt) else Ok(())
    }

    function AllocationIdCheck(signedReceipt: SignedMessage<Receipt>): (r: ReceiptResult<()>)
      ensures var outcome := receiptChecksAdapter.isValidAllocationId(signedReceipt.message.allocationId);
        && (r == Ok(()) <==> outcome == Ok(true))
        && (r == Err(InvalidAllocationID(signedReceipt.message.allocationId)) <==> outcome == Ok(false))
        && (outcome.Err? ==> r == Err(CheckFailedToComplete(outcome.error)))
    {
      match receiptChecksAdapter.isValidAllocationId(signedReceipt.message.allocationId)
      case Err(fault) => Err(CheckFailedToComplete(fault))
      case Ok(valid) =>
        if !valid then Err(InvalidAllocationID(signedReceipt.message.allocationId)) else Ok(())
    }

    /** Admits exactly the receipts strictly newer than the watermark; reads it, never writes it. */
    function TimestampCheck(signedReceipt: SignedMessage<Receipt>): (r: ReceiptResult<()>)
      reads this
      ensures r == Ok(()) <==> signedReceipt.message.timestampNs > minTimestampNs
      ensures r == Err(InvalidTimestamp(signedReceipt.message.timestampNs, minTimestampNs)) <==>
                signedReceipt.message.timestampNs <= minTimestampNs
    {
      var watermark := minTimestampNs;
      if signedReceipt.message.timestampNs <= watermark then
        Err(InvalidTimestamp(signedReceipt.message.timestampNs, watermark))
      else
        Ok(())
    }

    function ValueCheck(signedReceipt: SignedMessage<Receipt>, queryId: U64): (r: ReceiptResult<()>)
      requires receiptChecksAdapter.isValidValue.requires(signedReceipt.message.value, queryId)
      ensures var outcome := receiptChecksAdapter.isValidValue(signedReceipt.message.value, queryId);
        && (r == Ok(()) <==> outcome == Ok(true))
        && (r == Err(InvalidValue(signedReceipt.message.value)) <==> outcome == Ok(false))
        && (outcome.Err? ==> r == Err(CheckFailedToComplete(outcome.error)))
    {
      match receiptChecksAdapter.isValidValue(signedReceipt.message.value, queryId)
      case Err(fault) => Err(CheckFailedToComplete(fault))
      case Ok(valid) => if !valid then Err(InvalidValue(signedReceipt.message.value)) else Ok(())
    }

    /** Recovers the signer and asks the adapter whether it is an authorized gateway. */
    function SignatureCheck(signedReceipt: SignedMessage<Receipt>): (r: ReceiptResult<()>)
      ensures var recovered := recoverReceiptSigner(domainSeparator, signedReceipt);
        && (recovered.Err? ==> r == Err(InvalidSignature(RecoveryFailed(recovered.error))))
        && (recovered.Ok? ==>
              var outcome := receiptChecksAdapter.isValidGatewayId(recovered.value);
              && (r == Ok(()) <==> outcome == Ok(true))
              && (r == Err(InvalidSignature(UnauthorizedSigner(recovered.value))) <==> outcome == Ok(false))
              && (outcome.Err? ==> r == Err(CheckFailedToComplete(outcome.error))))
    {
      match recoverReceiptSigner(domainSeparator, signedReceipt)
      case Err(e) => Err(InvalidSignature(RecoveryFailed(e)))
      case Ok(signer) =>
        match receiptChecksAdapter.isValidGatewayId(signer)
        case Err(fault) => Err(CheckFailedToComplete(fault))
        case Ok(valid) => if !valid then Err(InvalidSignature(UnauthorizedSigner(signer))) else Ok(())
    }

    /**
     * The escrow check, from the escrow log `before` to the log `after` with result `r`:
     * a failed recovery returns `InvalidSignature` and calls nothing; otherwise exactly one
     * `subtract_escrow` for the recovered signer and the receipt's value is made, and its
     * failure becomes `SubtractEscrowFailed`.
     */
    ghost predicate ReservesEscrow(signedReceipt: SignedMessage<Receipt>, before: seq<EscrowRequest>,
                                   after: seq<EscrowRequest>, r: ReceiptResult<()>)
    {
      match recoverReceiptSigner(domainSeparator, signedReceipt)
      case Err(e) => after == before && r == Err(InvalidSignature(RecoveryFailed(e)))
      case Ok(signer) =>
        var request := EscrowRequest(signer, signedReceipt.message.value);
        && after == before + [request]
        && (r == Ok(()) <==> escrowAdapter.backend(before, request).Ok?)
        && (r.Err? ==> r == Err(SubtractEscrowFailed))
    }

    method ReserveEscrowCheck(signedReceipt: SignedMessage<Receipt>) returns (r: ReceiptResult<()>)
      modifies escrowAdapter
      ensures ReservesEscrow(signedReceipt, old(escrowAdapter.requests), escrowAdapter.requests, r)
      ensures unchanged(this)
    {
      match recoverReceiptSigner(domainSeparator, signedReceipt)
      case Err(e) =>
        r := Err(InvalidSignature(RecoveryFailed(e)));
      case Ok(signer) =>
        var subtracted := escrowAdapter.SubtractEscrow(signer, signedReceipt.message.value);
        if subtracted.Err? {
          r := Err(SubtractEscrowFailed);
        } else {
          r := Ok(());
        }
    }

    /** Validates that a voucher's signature recovers to an authorized gateway. */
    function RavSignatureCheck(signedRav: SignedMessage<ReceiptAggregateVoucher>): (r: Result<(), Error>)
      ensures var recovered := recoverRavSigner(domainSeparator, signedRav);
        && (recovered.Err? ==> r == Err(recovered.error))
        && (recovered.Ok? ==>
              var outcome := receiptChecksAdapter.isValidGatewayId(recovered.value);
              && (r == Ok(()) <==> outcome == Ok(true))
              && (r == Err(InvalidRecoveredSigner(recovered.value)) <==> outcome == Ok(false))
              && (outcome.Err? ==> r == Err(AdapterError(outcome.error))))
    {
      match recoverRavSigner(domainSeparator, signedRav)
      case Err(e) => Err(e)
      case Ok(signer) =>
        match receiptChecksAdapter.isValidGatewayId(signer)
        case Err(fault) => Err(AdapterError(fault))
        case Ok(valid) => if !valid then Err(InvalidRecoveredSigner(signer)) else Ok(())
    }
  }
}

/**
 * What the auditor's checks mean once the reference receipt-checks adapter is plugged
 * in: each adapter-backed check is decided by the mock's stores, the mock never makes a
 * check fail to complete, and a receipt passes the five read-only checks exactly when
 * it is new, on a known allocation, newer than the watermark, priced as appraised and
 * signed by an authorized gateway.
 */
module AuditorProperties {
  import opened Types
  import opened Eip712SignedMessage
  import opened TapReceipt
  import opened Adapters
  import opened ChecksAdapterMock
  import opened Auditor

  /**
   * With the mock, the uniqueness check passes iff the only id, if any, under which the
   * store holds the receipt's message is the receipt's own id; otherwise it reports a
   * non-unique receipt.
   */
  lemma UniquenessAgainstMock(auditor: ReceiptAuditor, mock: ReceiptChecksAdapterMock, signedReceipt: SignedMessage<Receipt>, receiptId: U64)
    requires auditor.receiptChecksAdapter == AsAdapter(mock)
    ensures auditor.UniquenessCheck(signedReceipt, receiptId) == Ok(()) <==>
              MessageHolders(mock.receiptStorage, signedReceipt.message) <= {receiptId}
    ensures auditor.UniquenessCheck(signedReceipt, receiptId) != Ok(()) ==> auditor.UniquenessCheck(signedReceipt, receiptId) == Err(NonUniqueReceipt)
  {
    IsUniqueIffOnlyOwnIdHoldsMessage(mock, signedReceipt, receiptId);
  }

  /** With the mock, the allocation check passes iff the allocation is known, and otherwise reports the receipt's allocation id. */
  lemma AllocationIdAgainstMock(auditor: ReceiptAuditor, mock: ReceiptChecksAdapterMock, signedReceipt: SignedMessage<Receipt>)
    requires auditor.receiptChecksAdapter == AsAdapter(mock)
    ensures auditor.AllocationIdCheck(signedReceipt) == Ok(()) <==> signedReceipt.message.allocationId in mock.allocationIds
    ensures signedReceipt.message.allocationId !in mock.allocationIds ==>
              auditor.AllocationIdCheck(signedReceipt) == Err(InvalidAllocationID(signedReceipt.message.allocationId))
  {
  }

  /**
   * With the mock, a receipt whose signer is recovered passes the signature check iff
   * that signer is a known gateway; an unknown signer is reported with its address, and a
   * failed recovery is reported with its cause.
   */
  lemma SignatureAgainstMock(auditor: ReceiptAuditor, mock: ReceiptChecksAdapterMock, signedReceipt: SignedMessage<Receipt>)
    requires auditor.receiptChecksAdapter == AsAdapter(mock)
    ensures var recovered := auditor.recoverReceiptSigner(auditor.domainSeparator, signedReceipt);
      && (auditor.SignatureCheck(signedReceipt) == Ok(()) <==> recovered.Ok? && recovered.value in mock.gatewayIds)
      && (recovered.Ok? && recovered.value !in mock.gatewayIds ==>
            auditor.SignatureCheck(signedReceipt) == Err(InvalidSignature(UnauthorizedSigner(recovered.value))))
      && (recovered.Err? ==> auditor.SignatureCheck(signedReceipt) == Err(InvalidSignature(RecoveryFailed(recovered.error))))
  {
  }

  /** Resubmitting a stored signed receipt under a fresh id fails the uniqueness check. */
  lemma ResubmissionUnderOtherIdIsRejected(auditor: ReceiptAuditor, mock: ReceiptChecksAdapterMock, receiptId: U64, otherId: U64)
    requires auditor.receiptChecksAdapter == AsAdapter(mock)
    requires receiptId in mock.receiptStorage && otherId != receiptId
    ensures auditor.UniquenessCheck(mock.receiptStorage[receiptId].signedReceipt, otherId) == Err(NonUniqueReceipt)
  {
  }

  /** A result that records a collaborator failure rather than a verdict on the receipt. */
  predicate FailedToComplete(r: ReceiptResult<()>)
  {
    r.Err? && r.error.CheckFailedToComplete?
  }

  /**
   * The mock never errors, so no adapter-backed check fails to complete, and a voucher
   * whose signer is recovered is never rejected with an adapter error.
   */
  lemma MockChecksAlwaysComplete(auditor: ReceiptAuditor, mock: ReceiptChecksAdapterMock, signedReceipt: SignedMessage<Receipt>,
                                 queryId: U64, receiptId: U64, signedRav: SignedMessage<ReceiptAggregateVoucher>)
    requires auditor.receiptChecksAdapter == AsAdapter(mock)
    requires queryId in mock.queryAppraisals
    ensures !FailedToComplete(auditor.UniquenessCheck(signedReceipt, receiptId))
    ensures !FailedToComplete(auditor.AllocationIdCheck(signedReceipt))
    ensures !FailedToComplete(auditor.ValueCheck(signedReceipt, queryId))
    ensures !FailedToComplete(auditor.SignatureCheck(signedReceipt))
    ensures var recovered := auditor.recoverRavSigner(auditor.domainSeparator, signedRav);
              recovered.Ok? ==> !auditor.RavSignatureCheck(signedRav).Err? || !auditor.RavSignatureCheck(signedRav).error.AdapterError?
  {
  }

  /**
   * With the mock, a receipt passes the five read-only checks exactly when no id but its
   * own holds its message, its allocation is known, it is newer than the watermark, its
   * value equals the appraisal of its query and it recovers to a known gateway.
   */
  lemma ReadOnlyChecksPassAgainstMock(auditor: ReceiptAuditor, mock: ReceiptChecksAdapterMock, signedReceipt: SignedMessage<Receipt>,
                                      queryId: U64, receiptId: U64)
    requires auditor.receiptChecksAdapter == AsAdapter(mock)
    requires queryId in mock.queryAppraisals
    ensures
      && auditor.UniquenessCheck(signedReceipt, receiptId) == Ok(())
      && auditor.AllocationIdCheck(signedReceipt) == Ok(())
      && auditor.TimestampCheck(signedReceipt) == Ok(())
      && auditor.ValueCheck(signedReceipt, queryId) == Ok(())
      && auditor.SignatureCheck(signedReceipt) == Ok(())
    <==>
      && MessageHolders(mock.receiptStorage, signedReceipt.message) <= {receiptId}
      && signedReceipt.message.allocationId in mock.allocationIds
      && signedReceipt.message.timestampNs > auditor.minTimestampNs
      && signedReceipt.message.value == mock.queryAppraisals[queryId]
      && auditor.recoverReceiptSigner(auditor.domainSeparator, signedReceipt).Ok?
      && auditor.recoverReceiptSigner(auditor.domainSeparator, signedReceipt).value in mock.gatewayIds
  {
    IsUniqueIffOnlyOwnIdHoldsMessage(mock, signedReceipt, receiptId);
  }

  /** With the mock, a value check accepts exactly the appraisal of the query, and rejects every other value and reports it. */
  lemma ValueCheckAgainstMock(auditor: ReceiptAuditor, mock: ReceiptChecksAdapterMock, signedReceipt: SignedMessage<Receipt>, queryId: U64)
    requires auditor.receiptChecksAdapter == AsAdapter(mock)
    requires queryId in mock.queryAppraisals
    ensures auditor.ValueCheck(signedReceipt, queryId) == Ok(()) <==> signedReceipt.message.value == mock.queryAppraisals[queryId]
    ensures signedReceipt.message.value != mock.queryAppraisals[queryId] ==>
              auditor.ValueCheck(signedReceipt, queryId) == Err(InvalidValue(signedReceipt.message.value))
  {
  }

  /** With the mock, a voucher passes iff it recovers to a known gateway; a recovered signer that is not a known gateway is reported. */
  lemma RavSignatureAgainstMock(auditor: ReceiptAuditor, mock: ReceiptChecksAdapterMock, signedRav: SignedMessage<ReceiptAggregateVoucher>)
    requires auditor.receiptChecksAdapter == AsAdapter(mock)
    ensures var recovered := auditor.recoverRavSigner(auditor.domainSeparator, signedRav);
      && (auditor.RavSignatureCheck(signedRav) == Ok(()) <==> recovered.Ok? && recovered.value in mock.gatewayIds)
      && (recovered.Ok? && recovered.value !in mock.gatewayIds ==>
            auditor.RavSignatureCheck(signedRav) == Err(InvalidRecoveredSigner(recovered.value)))
  {
  }

  /**
   * The auditor does not gate the escrow check: running it twice on a receipt whose
   * signer is recovered issues two `subtract_escrow` calls for the same signer and value.
   * Single-fire reservation is the caller's duty.
   */
  lemma RepeatedEscrowCheckSubtractsTwice(auditor: ReceiptAuditor, signedReceipt: SignedMessage<Receipt>,
                                          log0: seq<EscrowRequest>, log1: seq<EscrowRequest>, log2: seq<EscrowRequest>,
                                          r1: ReceiptResult<()>, r2: ReceiptResult<()>)
    requires auditor.recoverReceiptSigner(auditor.domainSeparator, signedReceipt).Ok?
    requires auditor.ReservesEscrow(signedReceipt, log0, log1, r1)
    requires auditor.ReservesEscrow(signedReceipt, log1, log2, r2)
    ensures |log2| == |log0| + 2 && log2[..|log0|] == log0 && log2[|log0|] == log2[|log0| + 1]
    ensures log2[|log0|] == EscrowRequest(auditor.recoverReceiptSigner(auditor.domainSeparator, signedReceipt).value, signedReceipt.message.value)
  {
  }
}

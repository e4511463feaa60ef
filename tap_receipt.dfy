/**
 * The check registry and error taxonomy of receipt validation: the receipt payload,
 * the closed enumeration of checks, the errors a check can report and the
 * per-check tri-state result map.
 */
module TapReceipt {
  import opened Types
  import opened Eip712SignedMessage

  /**
   * The receipt payload. The auditor reads the allocation id, the timestamp and the value;
   * the nonce is never read, but it takes part in message equality and so in uniqueness.
   */
  datatype Receipt = Receipt(allocationId: Address, timestampNs: U64, nonce: U64, value: U128)

  /** Why a signature check failed: recovery itself failed, or it recovered an unauthorized signer. */
  datatype SignatureFailure =
    | RecoveryFailed(cause: Error)
    | UnauthorizedSigner(address: Address)

  datatype ReceiptError =
    | InvalidAllocationID(receivedAllocationId: Address)
    | InvalidSignature(reason: SignatureFailure)
    | InvalidTimestamp(receivedTimestamp: U64, timestampMin: U64)
    | InvalidValue(receivedValue: U128)
    | NonUniqueReceipt
    | SubtractEscrowFailed
    | CheckFailedToComplete(source: AdapterFault)

  type ReceiptResult<T> = Result<T, ReceiptError>

  datatype ReceiptCheck =
    | CheckUnique
    | CheckAllocationId
    | CheckTimestamp
    | CheckValue
    | CheckSignature
    | CheckAndReserveEscrow

  /**
   * Per-check progress: a check mapped to `None` has not been attempted; `Some(Ok(()))`
   * passed; `Some(Err(e))` failed with `e`.
   */
  type ReceiptCheckResults = map<ReceiptCheck, Option<ReceiptResult<()>>>

  /** A receipt as kept in storage; its lifecycle state is not part of this model. */
  datatype ReceivedReceipt = ReceivedReceipt(signedReceipt: SignedMessage<Receipt>, queryId: U64, checks: ReceiptCheckResults)

  /** The position of a check in the declaration of `ReceiptCheck`. */
  function DeclarationIndex(c: ReceiptCheck): (i: nat)
  {
    match c
    case CheckUnique => 0
    case CheckAllocationId => 1
    case CheckTimestamp => 2
    case CheckValue => 3
    case CheckSignature => 4
    case CheckAndReserveEscrow => 5
  }

  /** Every check, once each, in declaration order. */
  function FullListOfChecks(): (checks: seq<ReceiptCheck>)
    ensures |checks| == 6
    ensures forall i :: 0 <= i < |checks| ==> DeclarationIndex(checks[i]) == i
  {
    [CheckUnique, CheckAllocationId, CheckTimestamp, CheckValue, CheckSignature, CheckAndReserveEscrow]
  }

  /** Every variant of `ReceiptCheck` sits in the full list, at its declaration index. */
  lemma FullListCoversEveryCheck()
    ensures forall c: ReceiptCheck :: DeclarationIndex(c) < |FullListOfChecks()| && FullListOfChecks()[DeclarationIndex(c)] == c
  {
  }

  lemma FullListHasNoDuplicates()
    ensures forall i, j :: 0 <= i < j < |FullListOfChecks()| ==> FullListOfChecks()[i] != FullListOfChecks()[j]
  {
  }

  /** A sequence without repeated entries has as many distinct elements as entries. */
  lemma {:induction false} DistinctElementsCount<T>(s: seq<T>)
    requires forall i, j :: 0 <= i < j < |s| ==> s[i] != s[j]
    ensures |set x | x in s| == |s|
  {
    if s != [] {
      var prefix := s[..|s| - 1];
      DistinctElementsCount(prefix);
      assert (set x | x in s) == (set x | x in prefix) + {s[|s| - 1]};
    }
  }

  /** The results map of a receipt on which no check has been attempted yet. */
  method FullListOfReceiptCheckResults() returns (results: ReceiptCheckResults)
    ensures forall c: ReceiptCheck :: c in results && results[c] == None
    ensures results.Keys == set c | c in FullListOfChecks()
    ensures |results| == |FullListOfChecks()|
  {
    results := map[];
    results := results[CheckUnique := None];
    results := results[CheckAllocationId := None];
    results := results[CheckTimestamp := None];
    results := results[CheckValue := None];
    results := results[CheckSignature := None];
    results := results[CheckAndReserveEscrow := None];
    FullListCoversEveryCheck();
    forall c: ReceiptCheck
      ensures c in results && results[c] == None
    {
      assert FullListOfChecks()[DeclarationIndex(c)] == c;
    }
    FullListHasNoDuplicates();
    DistinctElementsCount(FullListOfChecks());
  }
}

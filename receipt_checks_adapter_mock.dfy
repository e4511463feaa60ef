/**
 * The reference receipt-checks adapter used by the test suite. It answers the
 * auditor's four questions from a receipt store, a table of query appraisals and two
 * sets of known ids, and never writes any of them.
 */
module ChecksAdapterMock {
  import opened Types
  import opened Eip712SignedMessage
  import opened TapReceipt
  import opened Adapters

  datatype ReceiptChecksAdapterMock = ReceiptChecksAdapterMock(
    receiptStorage: map<U64, ReceivedReceipt>,
    queryAppraisals: map<U64, U128>,
    allocationIds: set<Address>,
    gatewayIds: set<Address>)

  /** No stored entry under another id carries the same message as `receipt`. */
  predicate IsUnique(mock: ReceiptChecksAdapterMock, receipt: SignedMessage<Receipt>, receiptId: U64)
  {
    forall storedId | storedId in mock.receiptStorage ::
      mock.receiptStorage[storedId].signedReceipt.message != receipt.message || storedId == receiptId
  }

  /** The allocation id is one of the known allocations. */
  predicate IsValidAllocationId(mock: ReceiptChecksAdapterMock, allocationId: Address)
  {
    allocationId in mock.allocationIds
  }

  /** The value matches the appraisal of the query exactly; an unappraised query is a panic. */
  predicate IsValidValue(mock: ReceiptChecksAdapterMock, value: U128, queryId: U64)
    requires queryId in mock.queryAppraisals
  {
    value == mock.queryAppraisals[queryId]
  }

  /** The address is one of the authorized gateways. */
  predicate IsValidGatewayId(mock: ReceiptChecksAdapterMock, gatewayId: Address)
  {
    gatewayId in mock.gatewayIds
  }

  /** The mock behind the adapter interface: total except for unappraised queries, and never failing. */
  function AsAdapter(mock: ReceiptChecksAdapterMock): (adapter: ReceiptChecksAdapter)
    ensures forall r, id :: adapter.isUnique(r, id) == Ok(IsUnique(mock, r, id))
    ensures forall a :: adapter.isValidAllocationId(a) == Ok(a in mock.allocationIds)
    ensures forall v, q :: q in mock.queryAppraisals ==> adapter.isValidValue.requires(v, q)
    ensures forall v, q :: q in mock.queryAppraisals ==> adapter.isValidValue(v, q) == Ok(v == mock.queryAppraisals[q])
    ensures forall g :: adapter.isValidGatewayId(g) == Ok(g in mock.gatewayIds)
  {
    ReceiptChecksAdapter(
      (r, id) => Ok(IsUnique(mock, r, id)),
      a => Ok(IsValidAllocationId(mock, a)),
      (v, q) requires q in mock.queryAppraisals => Ok(IsValidValue(mock, v, q)),
      g => Ok(IsValidGatewayId(mock, g)))
  }

  /** A store in which no two ids hold receipts with the same message. */
  ghost predicate NoDuplicateMessages(storage: map<U64, ReceivedReceipt>)
  {
    forall i, j :: i in storage && j in storage && i != j ==>
      storage[i].signedReceipt.message != storage[j].signedReceipt.message
  }

  /** The ids under which the store holds a receipt with exactly this message. */
  ghost function MessageHolders(storage: map<U64, ReceivedReceipt>, message: Receipt): (holders: set<U64>)
  {
    set id | id in storage && storage[id].signedReceipt.message == message
  }

  /** A receipt is unique iff the ids that hold its message are at most its own id. */
  lemma IsUniqueIffOnlyOwnIdHoldsMessage(mock: ReceiptChecksAdapterMock, receipt: SignedMessage<Receipt>, receiptId: U64)
    ensures IsUnique(mock, receipt, receiptId) <==> MessageHolders(mock.receiptStorage, receipt.message) <= {receiptId}
  {
    var holders := MessageHolders(mock.receiptStorage, receipt.message);
    if holders <= {receiptId} {
      forall id | id in mock.receiptStorage && mock.receiptStorage[id].signedReceipt.message == receipt.message
        ensures id == receiptId
      {
        assert id in holders;
      }
    }
  }

  lemma IsUniqueOnEmptyStorage(mock: ReceiptChecksAdapterMock, receipt: SignedMessage<Receipt>, receiptId: U64)
    requires mock.receiptStorage == map[]
    ensures IsUnique(mock, receipt, receiptId)
  {
  }

  /** Whatever is stored under the receipt's own id never affects its uniqueness. */
  lemma IsUniqueIgnoresOwnEntry(mock: ReceiptChecksAdapterMock, receipt: SignedMessage<Receipt>, receiptId: U64, entry: ReceivedReceipt)
    ensures IsUnique(mock.(receiptStorage := mock.receiptStorage[receiptId := entry]), receipt, receiptId)
            == IsUnique(mock, receipt, receiptId)
    ensures IsUnique(mock.(receiptStorage := mock.receiptStorage - {receiptId}), receipt, receiptId)
            == IsUnique(mock, receipt, receiptId)
  {
    var updated := mock.(receiptStorage := mock.receiptStorage[receiptId := entry]);
    var removed := mock.(receiptStorage := mock.receiptStorage - {receiptId});
    if IsUnique(mock, receipt, receiptId) {
      forall storedId | storedId in updated.receiptStorage && storedId != receiptId
        ensures updated.receiptStorage[storedId].signedReceipt.message != receipt.message
      {
        assert storedId in mock.receiptStorage;
      }
      forall storedId | storedId in removed.receiptStorage
        ensures removed.receiptStorage[storedId].signedReceipt.message != receipt.message || storedId == receiptId
      {
        assert storedId in mock.receiptStorage;
      }
    }
    if IsUnique(updated, receipt, receiptId) || IsUnique(removed, receipt, receiptId) {
      forall storedId | storedId in mock.receiptStorage && storedId != receiptId
        ensures mock.receiptStorage[storedId].signedReceipt.message != receipt.message
      {
        assert storedId in updated.receiptStorage && storedId in removed.receiptStorage;
      }
    }
  }

  /** In a duplicate-free store every stored receipt passes a re-check under its own id. */
  lemma StoredReceiptIsUniqueUnderOwnId(mock: ReceiptChecksAdapterMock, receiptId: U64)
    requires NoDuplicateMessages(mock.receiptStorage)
    requires receiptId in mock.receiptStorage
    ensures IsUnique(mock, mock.receiptStorage[receiptId].signedReceipt, receiptId)
  {
  }

  /** Uniqueness is decided by the message alone, not by the signature. */
  lemma IsUniqueDependsOnMessageOnly(mock: ReceiptChecksAdapterMock, r1: SignedMessage<Receipt>, r2: SignedMessage<Receipt>, receiptId: U64)
    requires r1.message == r2.message
    ensures IsUnique(mock, r1, receiptId) == IsUnique(mock, r2, receiptId)
  {
  }

  /** An equal message stored under a different id makes a receipt non-unique, whatever either signature is. */
  lemma EqualMessageUnderOtherIdIsNotUnique(mock: ReceiptChecksAdapterMock, receipt: SignedMessage<Receipt>, receiptId: U64, otherId: U64)
    requires otherId in mock.receiptStorage && otherId != receiptId
    requires mock.receiptStorage[otherId].signedReceipt.message == receipt.message
    ensures !IsUnique(mock, receipt, receiptId)
  {
  }

  /**
   * `IsUnique` is exactly the guard that keeps a duplicate-free store duplicate-free:
   * storing `entry` under `receiptId` keeps it so iff `entry` is unique under that id.
   */
  lemma IsUniqueIffStoreStaysDuplicateFree(mock: ReceiptChecksAdapterMock, receiptId: U64, entry: ReceivedReceipt)
    requires NoDuplicateMessages(mock.receiptStorage)
    ensures IsUnique(mock, entry.signedReceipt, receiptId)
            <==> NoDuplicateMessages(mock.receiptStorage[receiptId := entry])
  {
    var storage := mock.receiptStorage;
    var updated := storage[receiptId := entry];
    if IsUnique(mock, entry.signedReceipt, receiptId) {
      forall i, j | i in updated && j in updated && i != j
        ensures updated[i].signedReceipt.message != updated[j].signedReceipt.message
      {
        if i == receiptId {
          assert j in storage;
        } else if j == receiptId {
          assert i in storage;
        } else {
          assert i in storage && j in storage;
        }
      }
    }
    if NoDuplicateMessages(updated) {
      forall storedId | storedId in storage && storedId != receiptId
        ensures storage[storedId].signedReceipt.message != entry.signedReceipt.message
      {
        assert updated[storedId] == storage[storedId] && updated[receiptId] == entry;
      }
    }
  }

  /** A value one unit off the appraisal, in either direction, is rejected. */
  lemma OffByOneValueIsInvalid(mock: ReceiptChecksAdapterMock, value: U128, queryId: U64)
    requires queryId in mock.queryAppraisals
    requires value as int == mock.queryAppraisals[queryId] as int + 1 || value as int == mock.queryAppraisals[queryId] as int - 1
    ensures !IsValidValue(mock, value, queryId)
  {
  }
}

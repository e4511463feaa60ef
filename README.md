# Receipt validation core of the Timeline Aggregation Protocol

This project models, in Dafny, how a service checks the per-query receipts that gateways
send it before it may claim payment for them. It covers three parts:

- the **check registry**: the closed enumeration `ReceiptCheck` of six checks, the
  `ReceiptError` taxonomy, and the per-check results map `ReceiptCheckResults`;
- the **receipt auditor** (`ReceiptAuditor`): it owns the timestamp watermark
  `minTimestampNs`, an escrow adapter and a receipt-checks adapter, runs one named check at
  a time, and validates the signature of a receipt aggregate voucher (RAV);
- the **reference receipt-checks adapter** (`ReceiptChecksAdapterMock`): it gives the
  auditor's four predicates a concrete meaning over a receipt store, a table of query
  appraisals and two sets of known ids.

Modules, one per source file or component:

| module | file | models |
|---|---|---|
| `Types` | types.dfy | `u64`, `u128`, addresses, `Option`, `Result`, the adapter fault and the crate error |
| `Eip712SignedMessage` | eip712_signed_message.dfy | the signed-message envelope, the EIP-712 domain, signer recovery as a function value |
| `TapReceipt` | tap_receipt.dfy | `tap_core/src/tap_receipt/mod.rs` |
| `Adapters` | adapters.dfy | the two adapter interfaces the auditor is generic over |
| `ChecksAdapterMock` | receipt_checks_adapter_mock.dfy | `tap_core/src/adapters/test/receipt_checks_adapter_mock.rs` |
| `Auditor` | receipt_auditor.dfy | `tap_core/src/tap_receipt/receipt_auditor.rs` |
| `AuditorProperties` | auditor_properties.dfy | the auditor running against the mock adapter |

How the source's parts are represented:

- `ReceiptCheckResults` is `map<ReceiptCheck, Option<Result<(), ReceiptError>>>`. It is
  tri-state by its type: `None` means not attempted, `Some(Ok(()))` passed, `Some(Err(e))`
  failed with `e`. Nothing collapses it to a boolean.
- `get_full_list_of_receipt_check_results` builds its map by six successive inserts. It is
  the method `FullListOfReceiptCheckResults`, written as six map updates.
  `get_full_list_of_checks` is a `vec!` literal and becomes the function `FullListOfChecks`.
  `DeclarationIndex` gives each variant its position in the enum declaration, and the list
  is proved to coincide with that order.
- Signer recovery is EIP-712 hashing and ECDSA recovery, done by a foreign library. It is
  uninterpreted: the auditor holds two function values of type
  `Recover<T> = (Eip712Domain, SignedMessage<T>) -> Result<Address, Error>`, one for
  receipts and one for vouchers. The auditor's constructor takes them as two extra
  parameters.
- The receipt-checks adapter is a record of four function values, each returning
  `Result<bool, AdapterFault>`, because the auditor treats every predicate as fallible
  (`map_err(...)?`). `isValidValue` is a partial function (`-->`), so an adapter can refuse
  a query id it cannot appraise. The mock does this: it unwraps a missing appraisal.
  `ValueCheck`, and `Check` on `CheckValue`, therefore require the adapter to accept the
  query id. This is exactly the condition under which the source does not panic.
- The mock returns plain `bool`. `AsAdapter` wraps each of its predicates in `Ok`, which
  makes it the instance that never errors.
- The escrow adapter is a class. `requests` logs every `subtract_escrow` call, and the
  constant function `backend` stands for the hidden implementation: it gives the answer to
  a request from the requests before it. The model records that a call was made, and with
  which signer and value. It gives the call no balance semantics.
- The mock's predicates are functions of an immutable value, so none of them can change the
  storage, the appraisals or either id set.
- `ReceiptError`'s string payloads are replaced by structured ones.
  `InvalidSignature` carries a `SignatureFailure`: either `RecoveryFailed(cause)`, the
  recovery error that the source turns into a string, or `UnauthorizedSigner(address)`, the
  address the source formats into its message. `CheckFailedToComplete` carries the
  `AdapterFault` itself instead of its `to_string()`.
- The auditor does not prevent a second escrow reservation for the same receipt. Every
  `CheckAndReserveEscrow` that recovers a signer calls `subtract_escrow` again
  (`RepeatedEscrowCheckSubtractsTwice`). Making reservation single-fire is the caller's job,
  through the results map.

Where the protocol's design intent and the code differ, the model follows the code:

- A query with no appraisal is not reported as an adapter failure. The mock panics on it
  (`unwrap`), which the model expresses as a precondition of `isValidValue`.
- The watermark is meant to advance once per aggregation cycle, but
  `update_min_timestamp_ns` accepts any value, lower ones included.
- Escrow reservation is meant to be single-fire, but the auditor does not enforce it (see
  above).

## Model

| member | source | states |
|---|---|---|
| `TapReceipt.FullListOfChecks` | tap_core/src/tap_receipt/mod.rs:62-71 | the full list has exactly six checks, and the check at position i is the i-th variant of the enum declaration, so the order is Unique, AllocationId, Timestamp, Value, Signature, AndReserveEscrow |
| `TapReceipt.FullListCoversEveryCheck` | tap_core/src/tap_receipt/mod.rs:40-71 | every `ReceiptCheck` variant appears in the full list, at its declaration index |
| `TapReceipt.FullListHasNoDuplicates` | tap_core/src/tap_receipt/mod.rs:62-71 | no check appears twice in the full list |
| `TapReceipt.FullListOfReceiptCheckResults` | tap_core/src/tap_receipt/mod.rs:50-60 | every check maps to `None` (not attempted); the key set equals the set of elements of the full list, and the map has as many entries as the list |
| `Adapters.EscrowAdapter.SubtractEscrow` | tap_core/src/tap_receipt/receipt_auditor.rs:167-174 | each call appends exactly one request (signer, value) to the log and returns the backend's answer for it |
| `ChecksAdapterMock.IsUniqueIffOnlyOwnIdHoldsMessage` | tap_core/src/adapters/test/receipt_checks_adapter_mock.rs:44-52 | a receipt is unique iff the set of ids holding its message is contained in its own id |
| `ChecksAdapterMock.IsUniqueOnEmptyStorage` | tap_core/src/adapters/test/receipt_checks_adapter_mock.rs:46-51 | every receipt is unique against empty storage |
| `ChecksAdapterMock.IsUniqueIgnoresOwnEntry` | tap_core/src/adapters/test/receipt_checks_adapter_mock.rs:49-50 | self-exclusion: replacing or removing the entry stored under the receipt's own id never changes its uniqueness verdict |
| `ChecksAdapterMock.StoredReceiptIsUniqueUnderOwnId` | tap_core/src/adapters/test/receipt_checks_adapter_mock.rs:44-52 | in a store where no two ids hold the same message, every stored receipt is unique under its own id |
| `ChecksAdapterMock.IsUniqueDependsOnMessageOnly` | tap_core/src/adapters/test/receipt_checks_adapter_mock.rs:49 | two signed receipts with equal messages get the same uniqueness verdict, whatever their signatures |
| `ChecksAdapterMock.EqualMessageUnderOtherIdIsNotUnique` | tap_core/src/adapters/test/receipt_checks_adapter_mock.rs:46-51 | an entry with an equal message under a different id makes a receipt non-unique, whatever either signature is |
| `ChecksAdapterMock.IsUniqueIffStoreStaysDuplicateFree` | tap_core/src/adapters/test/receipt_checks_adapter_mock.rs:44-52 | in a duplicate-free store, a receipt is unique under an id iff storing it under that id keeps the store duplicate-free (both directions) |
| `ChecksAdapterMock.OffByOneValueIsInvalid` | tap_core/src/adapters/test/receipt_checks_adapter_mock.rs:59-67 | a value one unit above or below the appraisal is invalid |
| `Auditor.ReceiptAuditor.constructor` | tap_core/src/tap_receipt/receipt_auditor.rs:23-35 | the new auditor holds the given domain, adapters and recovery functions, and its watermark equals the starting value |
| `Auditor.ReceiptAuditor.UpdateMinTimestampNs` | tap_core/src/tap_receipt/receipt_auditor.rs:37-40 | the watermark becomes exactly the given value, with no monotonicity required; escrow state and every other field are unchanged |
| `Auditor.ReceiptAuditor.Check` | tap_core/src/tap_receipt/receipt_auditor.rs:42-59 | each variant runs exactly its own routine; `queryId` reaches only the value check and `receiptId` only the uniqueness check; only `CheckAndReserveEscrow` changes the escrow adapter; the watermark is never changed |
| `Auditor.ReceiptAuditor.UniquenessCheck` | tap_core/src/tap_receipt/receipt_auditor.rs:61-77 | `Ok` iff the adapter answers `Ok(true)`; `NonUniqueReceipt` iff it answers `Ok(false)`; an adapter fault becomes `CheckFailedToComplete` carrying that fault |
| `Auditor.ReceiptAuditor.AllocationIdCheck` | tap_core/src/tap_receipt/receipt_auditor.rs:79-96 | `Ok` iff the adapter accepts the allocation id; `InvalidAllocationID` carrying the receipt's allocation id iff it rejects it; an adapter fault becomes `CheckFailedToComplete` |
| `Auditor.ReceiptAuditor.TimestampCheck` | tap_core/src/tap_receipt/receipt_auditor.rs:98-110 | `Ok` iff the timestamp is strictly greater than the watermark; `InvalidTimestamp` carrying both the received timestamp and the watermark iff it is less than or equal; the watermark is only read |
| `Auditor.ReceiptAuditor.ValueCheck` | tap_core/src/tap_receipt/receipt_auditor.rs:111-129 | `Ok` iff the adapter accepts the value for the query; `InvalidValue` carrying the receipt's value iff it rejects it; an adapter fault becomes `CheckFailedToComplete` |
| `Auditor.ReceiptAuditor.SignatureCheck` | tap_core/src/tap_receipt/receipt_auditor.rs:131-156 | a recovery failure gives `InvalidSignature(RecoveryFailed)`; otherwise `Ok` iff the recovered signer is an authorized gateway, `InvalidSignature(UnauthorizedSigner(signer))` iff it is not, and `CheckFailedToComplete` on an adapter fault |
| `Auditor.ReceiptAuditor.ReserveEscrowCheck` | tap_core/src/tap_receipt/receipt_auditor.rs:158-177 | a recovery failure gives `InvalidSignature` and makes no escrow call; otherwise exactly one `subtract_escrow(signer, value)` call is made, and the result is `Ok` iff the backend accepts it, `SubtractEscrowFailed` otherwise |
| `Auditor.ReceiptAuditor.RavSignatureCheck` | tap_core/src/tap_receipt/receipt_auditor.rs:179-197 | a recovery error is propagated unchanged; otherwise `Ok` iff the signer is an authorized gateway, `InvalidRecoveredSigner(signer)` iff it is not, and `AdapterError` on an adapter fault |
| `AuditorProperties.UniquenessAgainstMock` | tap_core/src/adapters/test/receipt_checks_adapter_mock.rs:44-52 | with the mock, the uniqueness check passes iff the set of ids holding the receipt's message is contained in its own id, and otherwise fails with `NonUniqueReceipt` |
| `AuditorProperties.AllocationIdAgainstMock` | tap_core/src/adapters/test/receipt_checks_adapter_mock.rs:54-57 | with the mock, the allocation check passes iff the receipt's allocation id is one of the known allocation ids, and otherwise fails with `InvalidAllocationID` carrying that id |
| `AuditorProperties.SignatureAgainstMock` | tap_core/src/adapters/test/receipt_checks_adapter_mock.rs:69-72 | with the mock, the signature check passes iff the signer is recovered and is one of the authorized gateway ids; a recovered signer outside that set gives `InvalidSignature(UnauthorizedSigner(signer))`, a failed recovery `InvalidSignature(RecoveryFailed(cause))` |
| `AuditorProperties.ResubmissionUnderOtherIdIsRejected` | tap_core/src/adapters/test/receipt_checks_adapter_mock.rs:44-52 | with the mock, a stored signed receipt resubmitted under a different id fails with `NonUniqueReceipt` |
| `AuditorProperties.MockChecksAlwaysComplete` | tap_core/src/adapters/test/receipt_checks_adapter_mock.rs:43-72 | with the mock, no adapter-backed check returns `CheckFailedToComplete`, and a voucher whose signer is recovered is never rejected with `AdapterError` |
| `AuditorProperties.ReadOnlyChecksPassAgainstMock` | tap_core/src/tap_receipt/receipt_auditor.rs:61-156 | with the mock, all five read-only checks pass iff no id but the receipt's own holds its message, the allocation is known, the timestamp is above the watermark, the value equals the appraisal, and the signer is recovered and is a known gateway (both directions) |
| `AuditorProperties.ValueCheckAgainstMock` | tap_core/src/adapters/test/receipt_checks_adapter_mock.rs:59-67 | with the mock, the value check passes iff the receipt's value equals the appraisal of the query exactly; any other value fails with `InvalidValue` carrying that value |
| `AuditorProperties.RavSignatureAgainstMock` | tap_core/src/tap_receipt/receipt_auditor.rs:179-197 | with the mock, a voucher passes iff its signer is recovered and is a known gateway; a recovered unknown signer gives `InvalidRecoveredSigner` with its address |
| `AuditorProperties.RepeatedEscrowCheckSubtractsTwice` | tap_core/src/tap_receipt/receipt_auditor.rs:158-177 | two escrow checks on a receipt whose signer is recovered make two identical `subtract_escrow` requests; the auditor does not gate re-reservation |

## Left out

- EIP-712 hashing and ECDSA signer recovery: foreign cryptography. Recovery is an uninterpreted function value held by the auditor.
- `tokio::sync::RwLock`, `async`/`.await` and `Arc`: concurrency wrappers. The watermark and the escrow adapter's request log are plain fields, read and written in sequence. The receipt-checks adapter is a constant record of functions and is never written.
- Sharing through `Arc`: the mock's four stores are `Arc<RwLock<…>>` handles (receipt_checks_adapter_mock.rs:20-23, 27-31), so whoever holds another handle can write them and the mock sees the change on its next call. The model holds the mock as a value, a snapshot of its stores, and the auditor's checks adapter is fixed for the auditor's lifetime, so it gives the same answer to the same query every time.
- The escrow adapter's implementation is not part of this model. Its answers come from the uninterpreted `backend`, and no balance is tracked.
- `ReceivedReceipt`, `ReceiptState` and `RAVStatus` are not part of this model, and neither is their lifecycle or re-check policy. `ReceivedReceipt` keeps only the fields the mock reads or that are known to exist: the signed receipt, the query id and the results map.
- `Receipt::new` validation and timestamp generation are not part of this model. `Receipt` is a plain record of its allocation id, timestamp, nonce and value. The auditor never reads the nonce, but two messages are equal only when their nonces are, so it takes part in uniqueness.
- Error message strings (`to_string()`, `format!`), serde and strum derives, and the body of `ReceiptAggregateVoucher`. The voucher body is opaque bytes, and the messages are replaced by the structured payloads described above.
- The crate error type is not part of this model beyond the two variants the auditor builds (`AdapterError`, `InvalidRecoveredSigner`). `OtherError` stands for every other variant. The model assumes that signer recovery reports only errors of this crate type, because the auditor propagates them with `?`.
- Value validity against the mock is stated only for appraised query ids, which is why the value lemmas require `queryId in mock.queryAppraisals`. That `isValidValue` refuses every other query id is not stated, because Dafny does not expose a lambda's precondition as an equivalence.
- `ReceiptChecksAdapterMock::new` only stores its four arguments. It is the datatype constructor `ReceiptChecksAdapterMock`.
- The storage-adapter test harness (`receipt_storage_adapter_test.rs`): wallet derivation, signing and calls into a storage mock that is not part of this model. It contains no logic of the core.

/** Machine-width integers, addresses and the failure types shared by the crate. */
module Types {

  /** Rust `u64`: receipt timestamps, query ids and receipt ids. */
  newtype U64 = x: int | 0 <= x < 0x1_0000_0000_0000_0000

  /** Rust `u128`: receipt values and appraisals. */
  newtype U128 = x: int | 0 <= x < 0x1_0000_0000_0000_0000_0000_0000_0000_0000

  /** A 20-byte Ethereum address, read as an unsigned 160-bit number. */
  newtype Address = x: int | 0 <= x < 0x1_0000_0000_0000_0000_0000_0000_0000_0000_0000_0000

  datatype Option<+T> = None | Some(value: T)

  datatype Result<+T, +E> = Ok(value: T) | Err(error: E)

  /** The error an injected adapter reports; only its description is observable. */
  datatype AdapterFault = AdapterFault(description: string)

  /**
   * The crate-wide error type: the two variants the auditor builds, and one variant that
   * stands for every other error of the crate, such as whatever signer recovery reports.
   */
  datatype Error =
    | AdapterError(sourceError: AdapterFault)
    | InvalidRecoveredSigner(address: Address)
    | OtherError(description: string)

  /** The body of a receipt aggregate voucher; its fields are not interpreted here. */
  datatype ReceiptAggregateVoucher = ReceiptAggregateVoucher(encoded: seq<bv8>)
}
